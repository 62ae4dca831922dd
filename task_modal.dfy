/** The to-do editor (components/TaskModal.tsx): the fields set when it opens for a new or an
    existing task, what is built on save, the generated steps added to the description, a
    new category, and delete. The breakdown request is a parameter: its reply, or `None`
    when it fails (the service then gives ""). The clock is a parameter, read twice on save:
    `Date.now()` for the new id and `new Date()` for the default due instant. */
module TaskModal {
  import opened Wrappers
  import opened Strings
  import opened Types
  import opened GeminiService
  import AppStore

  /** The category a new task starts in: the first category, or 'Wellness' when there is
      none (or it is empty). */
  function DefaultCategory(categories: seq<string>): (r: string)
    ensures |categories| > 0 && categories[0] != "" ==> r == categories[0]
    ensures !(|categories| > 0 && categories[0] != "") ==> r == "Wellness"
    ensures r != ""
  {
    if |categories| > 0 && categories[0] != "" then categories[0] else "Wellness"
  }

  /** What `handleSave` builds from the form: an edited task keeps its id and completion
      and its due instant (`now` when it had none); a new one gets the instant `idNow` as
      id, is open and is due `now`. The title is trimmed; the trimmed description is used,
      or the generated breakdown of the trimmed title when it is blank. */
  function BuildTask(editing: Option<Task>, title: string, description: string, category: string,
                     idNow: nat, now: nat, breakdown: Option<string>): (r: Task)
    ensures r.id == (if editing.Some? then editing.value.id else NatToString(idNow))
    ensures r.completed == (editing.Some? && editing.value.completed)
    ensures r.dueDate == (if editing.Some? && editing.value.dueDate.Some? then editing.value.dueDate else Some(now))
    ensures r.title == Trim(title) && r.category == category && r.reflection.None?
    ensures Trim(description) != [] ==> r.description == Some(Trim(description))
    ensures Trim(description) == [] ==> r.description == Some(TaskBreakdown(breakdown))
  {
    var finalDescription := if Trim(description) != [] then Trim(description) else TaskBreakdown(breakdown);
    Task(if editing.Some? then editing.value.id else NatToString(idNow),
         Trim(title),
         editing.Some? && editing.value.completed,
         category,
         if editing.Some? && editing.value.dueDate.Some? then editing.value.dueDate else Some(now),
         None,
         Some(finalDescription))
  }

  /** A new task's id is the creation instant, so it reads back as that instant. */
  lemma NewTaskCreatedAt(title: string, description: string, category: string, idNow: nat, now: nat,
                         breakdown: Option<string>)
    ensures var t := BuildTask(None, title, description, category, idNow, now, breakdown);
            AllDigits(t.id) && CreatedAt(t) == idNow
  {
    NatToStringRoundTrip(idNow);
  }

  /** Saving an edited task of the list through the store's upsert replaces it where it
      stands: the list keeps its length and its position holds the saved task. */
  lemma SaveEditedInPlace(tasks: seq<Task>, i: nat, title: string, description: string, category: string,
                          idNow: nat, now: nat, breakdown: Option<string>)
    requires i < |tasks|
    ensures var t := BuildTask(Some(tasks[i]), title, description, category, idNow, now, breakdown);
            var r := AppStore.UpsertTask(tasks, t);
            |r| == |tasks| && r[i] == t
  {
    var t := BuildTask(Some(tasks[i]), title, description, category, idNow, now, breakdown);
    assert AppStore.HasTask(tasks, t.id);
  }

  /** `prev ? prev + '\n\n' + steps : steps`: the steps are added after a blank line, and
      nothing already written is lost. */
  function WithSteps(prev: string, steps: string): (r: string)
    ensures prev == "" ==> r == steps
    ensures prev != "" ==> |r| == |prev| + 2 + |steps| && prev <= r && r[|prev|..|prev| + 2] == "\n\n" && r[|prev| + 2..] == steps
  {
    if prev != "" then prev + "\n\n" + steps else steps
  }

  class TaskForm {
    var editing: Option<Task>
    var title: string
    var description: string
    var selectedCategory: string
    var isAddingCategory: bool
    var newCategoryName: string
    var isGenerating: bool

    /** The fields as the opening effect leaves them for the category list `categories`:
        the edited task's fields, or a blank form in the default category. */
    predicate Opened(categories: seq<string>)
      reads this
    {
      && (editing.Some? ==>
            title == editing.value.title && selectedCategory == editing.value.category &&
            description == (if editing.value.description.Some? then editing.value.description.value else ""))
      && (editing.None? ==> title == "" && description == "" && selectedCategory == DefaultCategory(categories))
      && !isAddingCategory && newCategoryName == "" && !isGenerating
    }

    /** Opening the editor runs the opening effect. */
    constructor Open(taskToEdit: Option<Task>, categories: seq<string>)
      ensures editing == taskToEdit && Opened(categories)
    {
      editing := taskToEdit;
      new;
      RunOpenEffect(categories);
    }

    /** The effect at TaskModal.tsx:33-48, run on opening and again whenever `isOpen`,
        `taskToEdit` or the `categories` array changes while open. */
    method RunOpenEffect(categories: seq<string>)
      modifies this`title, this`description, this`selectedCategory, this`isAddingCategory,
               this`newCategoryName, this`isGenerating
      ensures Opened(categories)
    {
      match editing {
        case Some(t) =>
          title := t.title;
          description := if t.description.Some? then t.description.value else "";
          selectedCategory := t.category;
        case None =>
          title, description := "", "";
          selectedCategory := DefaultCategory(categories);
      }
      isAddingCategory, newCategoryName, isGenerating := false, "", false;
    }

    /** `handleSave`: nothing for a blank title; otherwise what it hands to `onSave`. */
    method Save(idNow: nat, now: nat, breakdown: Option<string>) returns (saved: Option<Task>)
      ensures !HasText(title) ==> saved.None?
      ensures HasText(title) ==>
                saved == Some(BuildTask(editing, title, description, selectedCategory, idNow, now, breakdown))
    {
      if !HasText(title) {
        return None;
      }
      var finalDescription := Trim(description);
      if finalDescription == [] {
        finalDescription := TaskBreakdown(breakdown);
      }
      var id := if editing.Some? then editing.value.id else NatToString(idNow);
      var completed := editing.Some? && editing.value.completed;
      var due := if editing.Some? && editing.value.dueDate.Some? then editing.value.dueDate else Some(now);
      saved := Some(Task(id, Trim(title), completed, selectedCategory, due, None, Some(finalDescription)));
    }

    /** `handleGenerateSteps`: with a title, the breakdown of the (untrimmed) title is added to
        the description. */
    method GenerateSteps(breakdown: Option<string>)
      modifies this`description, this`isGenerating
      ensures !HasText(old(title)) ==> description == old(description) && isGenerating == old(isGenerating)
      ensures HasText(old(title)) ==>
                description == WithSteps(old(description), TaskBreakdown(breakdown)) && !isGenerating
    {
      if !HasText(title) {
        return;
      }
      isGenerating := true;
      var steps := TaskBreakdown(breakdown);
      description := if description != "" then description + "\n\n" + steps else steps;
      isGenerating := false;
    }

    /** `handleAddNewCategory`: a non-blank name is trimmed, handed to `onAddCategory` and
        selected; a blank one changes nothing. This is the handler on its own, and what the
        form keeps when the opening effect does not run again; `AddNewCategoryAsWritten`
        follows it with the re-run the app makes. */
    method AddNewCategory() returns (added: Option<string>)
      modifies this`selectedCategory, this`newCategoryName, this`isAddingCategory
      ensures !HasText(old(newCategoryName)) ==>
                added.None? && selectedCategory == old(selectedCategory) &&
                newCategoryName == old(newCategoryName) && isAddingCategory == old(isAddingCategory)
      ensures HasText(old(newCategoryName)) ==>
                added == Some(Trim(old(newCategoryName))) && selectedCategory == Trim(old(newCategoryName)) &&
                newCategoryName == "" && !isAddingCategory
    {
      if !HasText(newCategoryName) {
        return None;
      }
      var name := Trim(newCategoryName);
      added := Some(name);
      selectedCategory, newCategoryName, isAddingCategory := name, "", false;
    }

    /** `handleAddNewCategory` as the app runs it. `onAddCategory` is App's
        `handleAddCategory`, which for a name not yet listed stores a new array
        `[...categories, name]`; that array reaches the open form as its `categories`, so the
        opening effect runs again on it. `shown` is the list the form then holds. */
    method AddNewCategoryAsWritten(categories: seq<string>) returns (added: Option<string>, shown: seq<string>)
      modifies this`title, this`description, this`selectedCategory, this`isAddingCategory,
               this`newCategoryName, this`isGenerating
      ensures added == (if HasText(old(newCategoryName)) then Some(Trim(old(newCategoryName))) else None)
      ensures shown == (if added.Some? then AppStore.AddIfAbsent(categories, added.value) else categories)
      ensures added.Some? && added.value !in categories ==> Opened(shown)
      ensures added.Some? && added.value in categories ==>
                selectedCategory == added.value && newCategoryName == "" && !isAddingCategory &&
                title == old(title) && description == old(description) && isGenerating == old(isGenerating)
      ensures added.None? ==>
                selectedCategory == old(selectedCategory) && newCategoryName == old(newCategoryName) &&
                isAddingCategory == old(isAddingCategory) && title == old(title) &&
                description == old(description) && isGenerating == old(isGenerating)
    {
      added := AddNewCategory();
      shown := categories;
      if added.Some? {
        shown := AppStore.AddIfAbsent(categories, added.value);
        if added.value !in categories {
          RunOpenEffect(shown);
        }
      }
    }

    /** `handleDelete`: the id handed to `onDelete`, only when editing and a delete handler
        was given. */
    method Delete(hasDeleteHandler: bool) returns (deleted: Option<string>)
      ensures deleted.Some? <==> editing.Some? && hasDeleteHandler
      ensures deleted.Some? ==> deleted.value == editing.value.id
    {
      if editing.Some? && hasDeleteHandler {
        return Some(editing.value.id);
      }
      return None;
    }
  }

  /** As written: a new task titled "Call mom" with the categories Work, Personal and
      Wellness. Adding the category "Family" re-runs the opening effect on the longer list,
      which clears the title and selects "Work" again, so saving then builds nothing. */
  method NewCategoryResetsForm() returns (selected: string, saved: Option<Task>)
    ensures selected == "Work" && saved.None?
  {
    var categories := ["Work", "Personal", "Wellness"];
    var form := new TaskForm.Open(None, categories);
    form.title := "Call mom";
    form.newCategoryName := "Family";
    assert !IsSpace("Family"[0]);
    var added, shown := form.AddNewCategoryAsWritten(categories);
    assert added == Some("Family");
    selected := form.selectedCategory;
    saved := form.Save(0, 0, None);
  }

  /** With the form kept as it is (the opening effect not run again), the same steps leave
      "Family" selected and save the task under it with its title. */
  method NewCategoryKeepsForm() returns (selected: string, saved: Option<Task>)
    ensures selected == "Family" && saved.Some?
    ensures saved.value.category == "Family" && saved.value.title == "Call mom"
  {
    var categories := ["Work", "Personal", "Wellness"];
    var form := new TaskForm.Open(None, categories);
    form.title := "Call mom";
    form.newCategoryName := "Family";
    assert !IsSpace("Family"[0]);
    var added := form.AddNewCategory();
    selected := form.selectedCategory;
    assert !IsSpace(form.title[0]);
    assert Trim(form.title) == "Call mom";
    saved := form.Save(0, 0, None);
  }
}
