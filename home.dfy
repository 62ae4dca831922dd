/** The home page's decisions (pages/Home.tsx): which tasks are listed and in which order,
    the growth-garden stage, the greeting, and what completing a task saves. */
module Home {
  import opened Wrappers
  import opened Types
  import opened Sorting
  import opened Strings

  /** The sort menu's options. */
  datatype SortOption = Newest | Oldest | DueSoon | DueLate

  /** A task is listed while it is open, or while its completion is still animating out. */
  predicate Listed(t: Task, exiting: set<string>)
  {
    !t.completed || t.id in exiting
  }

  /** `tasks.filter(t => !t.completed || exitingTaskIds.has(t.id))`. */
  function Visible(tasks: seq<Task>, exiting: set<string>): (r: seq<Task>)
    ensures |r| <= |tasks|
  {
    if tasks == [] then []
    else (if Listed(tasks[0], exiting) then [tasks[0]] else []) + Visible(tasks[1..], exiting)
  }

  /** The listed tasks are exactly the open tasks and the exiting ones, each as often as in
      the list of tasks. */
  lemma {:induction false} VisibleSpec(tasks: seq<Task>, exiting: set<string>)
    ensures forall t :: multiset(Visible(tasks, exiting))[t] == if Listed(t, exiting) then multiset(tasks)[t] else 0
  {
    if tasks != [] {
      VisibleSpec(tasks[1..], exiting);
      assert tasks == [tasks[0]] + tasks[1..];
    }
  }

  /** The key of the 'due-soon' comparator: the due instant, +Infinity without a due date. */
  function DueSoonKey(t: Task): ExtInt
  {
    if t.dueDate.Some? then Fin(t.dueDate.value) else PosInf
  }

  /** The key of the 'due-late' comparator: the due instant, -Infinity without a due date. */
  function DueLateKey(t: Task): ExtInt
  {
    if t.dueDate.Some? then Fin(t.dueDate.value) else NegInf
  }

  /** `getSortedTasks`: the listed tasks in the order of the chosen option. */
  function SortedTasks(tasks: seq<Task>, exiting: set<string>, option: SortOption): seq<Task>
    requires NumericIds(tasks)
  {
    var v := Visible(tasks, exiting);
    match option
    case Newest => SortDescBy(v, IdKey)
    case Oldest => SortBy(v, IdKey)
    case DueSoon => SortBy(v, DueSoonKey)
    case DueLate => SortDescBy(v, DueLateKey)
  }

  /** Every option lists a rearrangement of the listed tasks. */
  lemma SortedTasksPermutation(tasks: seq<Task>, exiting: set<string>, option: SortOption)
    requires NumericIds(tasks)
    ensures multiset(SortedTasks(tasks, exiting, option)) == multiset(Visible(tasks, exiting))
    ensures NumericIds(SortedTasks(tasks, exiting, option))
  {
    var v := Visible(tasks, exiting);
    var r := SortedTasks(tasks, exiting, option);
    VisibleSpec(tasks, exiting);
    forall i | 0 <= i < |r| ensures AllDigits(r[i].id) {
      assert r[i] in multiset(v);
      assert r[i] in multiset(tasks);
    }
  }

  /** 'newest' orders ids (creation instants) descending and 'oldest' ascending. */
  lemma SortedTasksById(tasks: seq<Task>, exiting: set<string>, option: SortOption)
    requires NumericIds(tasks)
    ensures var r := SortedTasks(tasks, exiting, option);
            && NumericIds(r)
            && (option == Newest ==> forall i, j :: 0 <= i < j < |r| ==> CreatedAt(r[j]) <= CreatedAt(r[i]))
            && (option == Oldest ==> forall i, j :: 0 <= i < j < |r| ==> CreatedAt(r[i]) <= CreatedAt(r[j]))
  {
    SortedTasksPermutation(tasks, exiting, option);
  }

  /** 'due-soon' orders due instants ascending and 'due-late' descending, both with the
      undated tasks after every dated one. */
  lemma SortedTasksByDue(tasks: seq<Task>, exiting: set<string>, option: SortOption)
    requires NumericIds(tasks)
    ensures var r := SortedTasks(tasks, exiting, option);
            && (option == DueSoon || option == DueLate ==>
                  forall i, j :: 0 <= i < j < |r| && r[i].dueDate.None? ==> r[j].dueDate.None?)
            && (option == DueSoon ==> forall i, j :: 0 <= i < j < |r| && r[j].dueDate.Some? ==>
                  r[i].dueDate.Some? && r[i].dueDate.value <= r[j].dueDate.value)
            && (option == DueLate ==> forall i, j :: 0 <= i < j < |r| && r[j].dueDate.Some? ==>
                  r[i].dueDate.Some? && r[j].dueDate.value <= r[i].dueDate.value)
  {
    var v := Visible(tasks, exiting);
    if option == DueSoon {
      var r := SortBy(v, DueSoonKey);
      forall i, j | 0 <= i < j < |r|
        ensures r[i].dueDate.None? ==> r[j].dueDate.None?
        ensures r[j].dueDate.Some? ==> r[i].dueDate.Some? && r[i].dueDate.value <= r[j].dueDate.value
      {
        assert ExtLe(DueSoonKey(r[i]), DueSoonKey(r[j]));
      }
    } else if option == DueLate {
      var r := SortDescBy(v, DueLateKey);
      forall i, j | 0 <= i < j < |r|
        ensures r[i].dueDate.None? ==> r[j].dueDate.None?
        ensures r[j].dueDate.Some? ==> r[i].dueDate.Some? && r[j].dueDate.value <= r[i].dueDate.value
      {
        assert ExtLe(DueLateKey(r[j]), DueLateKey(r[i]));
      }
    }
  }

  /** The garden's three stages. */
  datatype GrowthStage = Sprouting | Blooming | Thriving

  /** `getGrowthStage` on the number of completed tasks. */
  function Growth(completed: nat): (r: GrowthStage)
  {
    if completed < 3 then Sprouting else if completed < 10 then Blooming else Thriving
  }

  function StageRank(g: GrowthStage): nat
  {
    match g
    case Sprouting => 0
    case Blooming => 1
    case Thriving => 2
  }

  /** Each stage covers one band of counts (fewer than 3, 3 to 9, 10 or more), and
      completing more tasks never moves the garden back. */
  lemma GrowthBands(m: nat, n: nat)
    ensures Growth(n) == Sprouting <==> n < 3
    ensures Growth(n) == Blooming <==> 3 <= n <= 9
    ensures Growth(n) == Thriving <==> 10 <= n
    ensures m <= n ==> StageRank(Growth(m)) <= StageRank(Growth(n))
  {
  }

  /** `tasks.filter(t => t.completed).length`. */
  function CompletedCount(tasks: seq<Task>): (r: nat)
    ensures r <= |tasks|
  {
    if tasks == [] then 0 else (if tasks[0].completed then 1 else 0) + CompletedCount(tasks[1..])
  }

  /** Completing an open task raises the count by one. */
  lemma {:induction false} CompletedCountComplete(tasks: seq<Task>, i: nat)
    requires i < |tasks| && !tasks[i].completed
    ensures CompletedCount(tasks[i := tasks[i].(completed := true)]) == CompletedCount(tasks) + 1
  {
    if i > 0 {
      CompletedCountComplete(tasks[1..], i - 1);
      assert tasks[i := tasks[i].(completed := true)][1..] == tasks[1..][i - 1 := tasks[i].(completed := true)];
    }
  }

  /** `getGreeting` on the hour of the day. */
  function Greeting(hour: int): (r: string)
  {
    if hour < 12 then "Good morning" else if hour < 18 then "Good afternoon" else "Good evening"
  }

  lemma GreetingBands(hour: int)
    ensures Greeting(hour) == "Good morning" <==> hour < 12
    ensures Greeting(hour) == "Good afternoon" <==> 12 <= hour < 18
    ensures Greeting(hour) == "Good evening" <==> 18 <= hour
  {
  }

  /** `handleTaskClick`: a task whose completion dialog opens; a completed task opens nothing. */
  function TaskClick(task: Task): (r: Option<Task>)
    ensures r.None? <==> task.completed
    ensures r.Some? ==> r.value == task
  {
    if task.completed then None else Some(task)
  }

  /** What finishing the completion dialog does to the list of tasks. */
  datatype TaskAction = SaveTask(task: Task) | ToggleTask(id: string)

  /** `handleCompleteReflection`: with a task being completed, save it completed with the
      reflection (or toggle it when the page has no save handler); otherwise nothing. */
  function CompleteReflection(completing: Option<Task>, reflection: string, canSave: bool): (r: Option<TaskAction>)
    ensures completing.None? <==> r.None?
    ensures completing.Some? && canSave ==>
              r == Some(SaveTask(completing.value.(completed := true, reflection := Some(reflection))))
    ensures completing.Some? && !canSave ==> r == Some(ToggleTask(completing.value.id))
  {
    match completing
    case None => None
    case Some(t) => if canSave then Some(SaveTask(t.(completed := true, reflection := Some(reflection))))
                    else Some(ToggleTask(t.id))
  }

  /** The saved task differs from the clicked one only in being completed and carrying the
      reflection: it keeps its id, title, category and due date. */
  lemma CompletionKeepsTask(task: Task, reflection: string)
    requires !task.completed
    ensures var a := CompleteReflection(TaskClick(task), reflection, true);
            && a.Some? && a.value.SaveTask?
            && a.value.task.id == task.id && a.value.task.title == task.title
            && a.value.task.category == task.category && a.value.task.dueDate == task.dueDate
            && a.value.task.completed && a.value.task.reflection == Some(reflection)
  {
  }
}
