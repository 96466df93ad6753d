/**
 * The state of the `Index` page component and its event handlers: the task
 * list, the open task, the draft buffer and the active subject tab, with the
 * task list mirrored into the browser's local storage.
 */
module IndexPage {
  import opened Options
  import opened Tasks
  import JsString

  /**
   * The browser's local storage as far as the task list is concerned: the
   * value under the `schoolTasks` key, or `None` when the key was never
   * written. What is stored is the list itself; its JSON encoding is not
   * modelled.
   */
  class Storage {
    var schoolTasks: Option<seq<Task>>

    constructor (saved: Option<seq<Task>>)
      ensures schoolTasks == saved
    {
      schoolTasks := saved;
    }
  }

  /** The four state hooks of the component, over the storage it reads and writes. */
  class Index {
    const storage: Storage
    var tasks: seq<Task>
    var selectedTask: Option<Task>
    var taskContent: string
    var activeSubject: Subject

    /** The stored snapshot is the list the page holds. */
    ghost predicate Persisted()
      reads this, storage
    {
      storage.schoolTasks == Some(tasks)
    }

    /** The initial state of the hooks, before the mount effect has run. */
    constructor (storage: Storage)
      ensures this.storage == storage
      ensures tasks == [] && selectedTask == None && taskContent == "" && activeSubject == Portugues
    {
      this.storage := storage;
      tasks := [];
      selectedTask := None;
      taskContent := "";
      activeSubject := Portugues;
    }

    /**
     * The mount effect: adopt the stored list when there is one; otherwise
     * seed the list and store the seed. Either way the snapshot and the list
     * agree afterwards.
     */
    method Load()
      modifies this`tasks, storage`schoolTasks
      ensures old(storage.schoolTasks).Some? ==>
        tasks == old(storage.schoolTasks).value && storage.schoolTasks == old(storage.schoolTasks)
      ensures old(storage.schoolTasks).None? ==>
        tasks == InitialTasks() && storage.schoolTasks == Some(InitialTasks())
      ensures Persisted()
    {
      match storage.schoolTasks
      case Some(saved) =>
        tasks := saved;
      case None =>
        tasks := InitialTasks();
        storage.schoolTasks := Some(InitialTasks());
    }

    /** `saveTasks`: replace the list and write it, whole, to storage. */
    method SaveTasks(updatedTasks: seq<Task>)
      modifies this`tasks, storage`schoolTasks
      ensures tasks == updatedTasks
      ensures Persisted()
    {
      tasks := updatedTasks;
      storage.schoolTasks := Some(updatedTasks);
    }

    /**
     * `saveDraft`: with no open task, nothing happens. Otherwise every task
     * whose id is the open task's takes the buffer as its content and the
     * status draft, the list is stored, and the open task becomes the
     * previous selection (not the list entry) with the same change. The
     * buffer is not checked for blank text here; only the button is
     * disabled then.
     */
    method SaveDraft()
      modifies this`tasks, this`selectedTask, storage`schoolTasks
      ensures old(selectedTask).None? ==>
        tasks == old(tasks) && selectedTask == None && storage.schoolTasks == old(storage.schoolTasks)
      ensures old(selectedTask).Some? ==>
        && tasks == MarkDraft(old(tasks), old(selectedTask).value.id, taskContent)
        && selectedTask == Some(WithDraft(old(selectedTask).value, taskContent))
        && Persisted()
      ensures old(Persisted()) ==> Persisted()
      ensures |tasks| == |old(tasks)|
      ensures UniqueIds(tasks) <==> UniqueIds(old(tasks))
    {
      if selectedTask.None? {
        return;
      }
      var selected := selectedTask.value;
      var updatedTasks := MarkDraft(tasks, selected.id, taskContent);
      MarkDraftKeepsIds(tasks, selected.id, taskContent);
      SaveTasks(updatedTasks);
      selectedTask := Some(WithDraft(selected, taskContent));
    }

    /**
     * `submitTask`: with no open task, or a buffer that trims to the empty
     * string, nothing happens. Otherwise the tasks with the open task's id
     * are removed, the rest kept in order, the list stored, and the editor
     * closed with an empty buffer.
     */
    method SubmitTask()
      modifies this`tasks, this`selectedTask, this`taskContent, storage`schoolTasks
      ensures old(selectedTask).None? || JsString.IsBlank(old(taskContent)) ==>
        && tasks == old(tasks) && selectedTask == old(selectedTask) && taskContent == old(taskContent)
        && storage.schoolTasks == old(storage.schoolTasks)
      ensures old(selectedTask).Some? && !JsString.IsBlank(old(taskContent)) ==>
        && tasks == Without(old(tasks), old(selectedTask).value.id)
        && selectedTask == None && taskContent == ""
        && Persisted()
      ensures old(Persisted()) ==> Persisted()
      ensures UniqueIds(old(tasks)) ==> UniqueIds(tasks)
      ensures old(selectedTask).Some? && !JsString.IsBlank(old(taskContent)) ==>
        (UniqueIds(old(tasks)) && HasId(old(tasks), old(selectedTask).value.id) ==> |tasks| == |old(tasks)| - 1)
    {
      if selectedTask.None? || JsString.IsBlank(taskContent) {
        return;
      }
      if UniqueIds(tasks) {
        WithoutLength(tasks, selectedTask.value.id);
      }
      var updatedTasks := Without(tasks, selectedTask.value.id);
      SaveTasks(updatedTasks);
      selectedTask := None;
      taskContent := "";
    }

    /** `openTask`: open `task` in the editor, the buffer holding its content or "" when it has none. */
    method OpenTask(task: Task)
      modifies this`selectedTask, this`taskContent
      ensures selectedTask == Some(task)
      ensures taskContent == task.content.GetOr("")
    {
      selectedTask := Some(task);
      taskContent := task.content.GetOr("");
    }

    /** `closeTask`: close the editor and drop the buffer; what was not saved is lost. */
    method CloseTask()
      modifies this`selectedTask, this`taskContent
      ensures selectedTask == None && taskContent == ""
    {
      selectedTask := None;
      taskContent := "";
    }

    /** The text area's change handler: the buffer takes the typed text, nothing is stored. */
    method EditContent(text: string)
      modifies this`taskContent
      ensures taskContent == text
    {
      taskContent := text;
    }

    /** A subject tab's click handler. */
    method SelectSubject(subject: Subject)
      modifies this`activeSubject
      ensures activeSubject == subject
    {
      activeSubject := subject;
    }

    /**
     * `filteredTasks`: the tasks of the active subject, in list order, each
     * as often as in the list.
     */
    function FilteredTasks(): (r: seq<Task>)
      reads this
      ensures forall t :: t in r <==> t in tasks && t.subject == activeSubject
      ensures forall t: Task :: t.subject == activeSubject ==> multiset(r)[t] == multiset(tasks)[t]
    {
      OfSubject(tasks, activeSubject)
    }

    /** The "all done" message is shown when the active tab is empty. */
    predicate AllDone()
      reads this
      ensures AllDone() <==> forall t :: t in tasks ==> t.subject != activeSubject
    {
      var r := FilteredTasks();
      assert r != [] ==> r[0] in r;
      r == []
    }
  }

  /**
   * From an empty storage, the first page seeds the list and stores it; a
   * second page over the same storage then loads that same seed.
   */
  method SeedSession() {
    var storage := new Storage(None);
    var page := new Index(storage);
    page.Load();
    var reloaded := new Index(storage);
    reloaded.Load();
    assert reloaded.tasks == page.tasks == InitialTasks();
  }

  /**
   * Over a stored list with unique ids: the task at position `i` is opened,
   * `text` typed and saved as a draft; that position alone changes, the
   * editor shows the saved entry, and storage holds the changed list (which
   * a page loaded afterwards adopts, by the contract of `Load`).
   */
  method DraftSession(saved: seq<Task>, i: nat, text: string)
    requires UniqueIds(saved) && i < |saved|
  {
    var storage := new Storage(Some(saved));
    var page := new Index(storage);
    page.Load();
    page.OpenTask(saved[i]);
    page.EditContent(text);
    assert page.tasks == saved && page.selectedTask == Some(saved[i]) && page.taskContent == text;
    page.SaveDraft();
    assert page.tasks == MarkDraft(saved, saved[i].id, text);
    MarkDraftAt(saved, i, text);
    assert page.tasks == saved[i := WithDraft(saved[i], text)];
    assert page.selectedTask == Some(page.tasks[i]);
    assert page.taskContent == text;
    assert storage.schoolTasks == Some(page.tasks);
  }

  /**
   * Over a stored list with unique ids: the task at position `i` is opened
   * and submitted with a non-blank answer; that position alone is removed,
   * from the page and from storage, and the editor is closed.
   */
  method SubmitSession(saved: seq<Task>, i: nat, text: string)
    requires UniqueIds(saved) && i < |saved| && !JsString.IsBlank(text)
  {
    var storage := new Storage(Some(saved));
    var page := new Index(storage);
    page.Load();
    page.OpenTask(saved[i]);
    page.EditContent(text);
    assert page.tasks == saved && page.selectedTask == Some(saved[i]) && page.taskContent == text;
    page.SubmitTask();
    assert page.tasks == Without(saved, saved[i].id);
    WithoutAt(saved, i);
    assert page.tasks == saved[..i] + saved[i + 1..];
    assert |page.tasks| == |saved| - 1;
    assert page.selectedTask == None && page.taskContent == "";
    assert storage.schoolTasks == Some(page.tasks);
  }
}
