/**
 * The task list view: its form and edit state, and for each handler the request it
 * sends, how it changes the state, and what it shows. The backend's answer to a
 * request is a parameter; a handler that starts a refetch says so in `refetch`, and
 * the refetch itself is the separate `Fetch` call.
 */
module Tasks {
  import opened Nullable
  import opened Text
  import opened DatabaseTypes
  import opened Effects

  /** The colour class of a priority flag; unknown strings get the fallback blue. */
  function PriorityColor(priority: string): (color: string)
    ensures color == "text-blue-400" <==> forall p: Priority :: PriorityName(p) != priority
  {
    assert PriorityName(High) == "high" && PriorityName(Medium) == "medium" && PriorityName(Low) == "low";
    if priority == "high" then "text-red-400"
    else if priority == "medium" then "text-yellow-400"
    else if priority == "low" then "text-green-400"
    else "text-blue-400"
  }

  /** Each priority has its own colour. */
  lemma {:induction false} PriorityColorsDistinct(p: Priority, q: Priority)
    ensures PriorityColor(PriorityName(p)) == PriorityColor(PriorityName(q)) ==> p == q
  {
  }

  /** A request to the `tasks` table. */
  datatype TaskRequest =
    | NoRequest
    | SelectTasks(category: Category, order: seq<Order>)
    | InsertTask(row: TaskInsert)
    | UpdateTask(patch: TaskUpdate, id: string, userId: string)
    | DeleteTask(id: string, userId: string)

  /** The order the list is asked for: newest first. */
  const TaskOrder: seq<Order> := [Order("created_at", false)]

  /** The date part `YYYY-MM-DD` of an ISO timestamp such as `2024-05-01T09:30:00.000Z`. */
  function DatePart(isoTimestamp: string): string {
    BeforeFirst(isoTimestamp, 'T')
  }

  /** The partial update of an edit: the trimmed text and the priority, nothing else. */
  function EditPatch(text: string, priority: Priority): TaskUpdate {
    TaskUpdate(Some(text), None, Some(priority), None, None)
  }

  /** The partial update of a toggle: the completion flag alone. */
  function CompletionPatch(completed: bool): TaskUpdate {
    TaskUpdate(None, Some(completed), None, None, None)
  }

  /**
   * The request a submit sends: nothing for blank text or an unknown user; an update of
   * the edited task when editing; otherwise an insert into the active category, due today.
   */
  function SubmitRequest(text: string, priority: Priority, tab: Category, editing: Option<Task>,
                         userId: Option<string>, nowIso: string): (r: TaskRequest)
    ensures r.NoRequest? <==> AllSpace(text) || !Known(userId)
    ensures r.UpdateTask? <==> !r.NoRequest? && editing.Some?
    ensures r.InsertTask? <==> !r.NoRequest? && editing.None?
    ensures r.UpdateTask? ==>
              && r.id == editing.value.id && Some(r.userId) == userId
              && r.patch.text == Some(Trim(text)) && r.patch.priority == Some(priority)
              && r.patch.category.None? && r.patch.dueDate.None? && r.patch.completed.None?
    ensures r.InsertTask? ==>
              && Some(r.row.userId) == userId && r.row.text == Trim(text) && r.row.priority == priority
              && r.row.category == tab && r.row.dueDate == Some(Some(DatePart(nowIso)))
              && r.row.completed.None?
  {
    var t := Trim(text);
    if t == [] || !Known(userId) then NoRequest
    else if editing.Some? then UpdateTask(EditPatch(t, priority), editing.value.id, userId.value)
    else InsertTask(TaskInsert(userId.value, t, None, priority, Some(Some(DatePart(nowIso))), tab))
  }

  /** Editing a task changes its text and priority only: category, due date and completion stay. */
  lemma EditKeepsOtherFields(text: string, priority: Priority, tab: Category, editing: Option<Task>,
                             userId: Option<string>, nowIso: string, row: Task)
    requires SubmitRequest(text, priority, tab, editing, userId, nowIso).UpdateTask?
    ensures var r := ApplyTaskUpdate(row, SubmitRequest(text, priority, tab, editing, userId, nowIso).patch);
            && r == row.(text := Trim(text), priority := priority)
            && r.category == row.category && r.dueDate == row.dueDate && r.completed == row.completed
  {
  }

  /**
   * The request a toggle sends: nothing for an unknown user or an id not in the list;
   * otherwise an update setting `completed` to the negation of the listed task's flag.
   */
  function ToggleRequest(todos: seq<Task>, userId: Option<string>, id: string): (r: TaskRequest)
    ensures r.NoRequest? <==> !Known(userId) || forall i :: 0 <= i < |todos| ==> todos[i].id != id
    ensures !r.NoRequest? ==>
              exists i :: IsFirst(todos, TaskId, id, i)
                          && r == UpdateTask(CompletionPatch(!todos[i].completed), id, userId.value)
  {
    LookupFindsFirst(todos, TaskId, id);
    if !Known(userId) then NoRequest
    else match Lookup(todos, TaskId, id)
      case None => NoRequest
      case Some(t) => UpdateTask(CompletionPatch(!t.completed), id, userId.value)
  }

  /**
   * Toggling twice restores the flag: if the list fetched after the first toggle shows the
   * task with the first update applied, the second toggle's update brings the row back.
   */
  lemma ToggleTwiceRestores(todos: seq<Task>, refetched: seq<Task>, userId: Option<string>, id: string, t: Task)
    requires Known(userId) && Lookup(todos, TaskId, id) == Some(t)
    requires ToggleRequest(todos, userId, id).UpdateTask?
    requires Lookup(refetched, TaskId, id) == Some(ApplyTaskUpdate(t, ToggleRequest(todos, userId, id).patch))
    ensures ToggleRequest(refetched, userId, id).UpdateTask?
    ensures ApplyTaskUpdate(ApplyTaskUpdate(t, ToggleRequest(todos, userId, id).patch),
                            ToggleRequest(refetched, userId, id).patch) == t
  {
  }

  /** A snapshot of every field of the view. */
  datatype TaskView = TaskView(
    todos: seq<Task>,
    newTodo: string,
    priority: Priority,
    activeTab: Category,
    editingTodo: Option<Task>,
    loading: bool,
    userId: Option<string>)
  {
    /** The view with its form back at the defaults: empty text, medium priority, no edit. */
    function ClearedForm(): TaskView {
      this.(newTodo := "", priority := Medium, editingTodo := None)
    }
  }

  class TaskBoard {
    var todos: seq<Task>
    var newTodo: string
    var priority: Priority
    var activeTab: Category
    var editingTodo: Option<Task>
    var loading: bool
    var userId: Option<string>

    /** All of the fields at once. */
    function View(): TaskView
      reads this
    {
      TaskView(todos, newTodo, priority, activeTab, editingTodo, loading, userId)
    }

    /** The initial state: empty list and form, short-term tab, loading, no user yet. */
    constructor ()
      ensures View() == TaskView([], "", Medium, ShortTerm, None, true, None)
      ensures View() == View().ClearedForm()
    {
      todos, newTodo, priority, activeTab := [], "", Medium, ShortTerm;
      editingTodo, loading, userId := None, true, None;
    }

    /** The user lookup has answered: a user is recorded and the list is (re)fetched. */
    method Identify(user: Option<string>) returns (refetch: bool)
      modifies this
      ensures View() == if user.Some? then old(View()).(userId := user) else old(View())
      ensures refetch == user.Some?
    {
      if user.Some? {
        userId := user;
      }
      refetch := user.Some?;
    }

    /** Choosing a tab. */
    method SelectTab(tab: Category)
      modifies this
      ensures View() == old(View()).(activeTab := tab)
    {
      activeTab := tab;
    }

    /** Typing into the text field. */
    method EditText(text: string)
      modifies this
      ensures View() == old(View()).(newTodo := text)
    {
      newTodo := text;
    }

    /** Choosing a priority in the selector. */
    method ChoosePriority(p: Priority)
      modifies this
      ensures View() == old(View()).(priority := p)
    {
      priority := p;
    }

    /**
     * Loading the list of the active category, newest first. A success replaces the list
     * (`null` giving the empty list), a failure keeps it and says so; loading ends either way.
     */
    method Fetch(outcome: FetchOutcome<Task>) returns (req: TaskRequest, notice: Notice)
      modifies this
      ensures req == SelectTasks(old(activeTab), TaskOrder)
      ensures outcome.Fetched? ==>
                View() == old(View()).(todos := outcome.data.GetOr([]), loading := false) && notice == NoNotice
      ensures outcome.FetchFailed? ==>
                View() == old(View()).(loading := false) && notice == Failure("Error loading tasks")
    {
      req := SelectTasks(activeTab, TaskOrder);
      match outcome {
        case Fetched(data) =>
          todos := data.GetOr([]);
          notice := NoNotice;
        case FetchFailed =>
          notice := Failure("Error loading tasks");
      }
      loading := false;
    }

    /**
     * Submitting the form, with `nowIso` the current time. Nothing happens for blank text
     * or an unknown user. A successful request clears the form and asks for a refetch; a
     * failed one leaves everything as it was and names the edit or the add.
     */
    method Submit(nowIso: string, outcome: Outcome) returns (req: TaskRequest, notice: Notice, refetch: bool)
      modifies this
      ensures req == SubmitRequest(old(newTodo), old(priority), old(activeTab), old(editingTodo), old(userId), nowIso)
      ensures req.NoRequest? ==> View() == old(View()) && notice == NoNotice && !refetch
      ensures !req.NoRequest? && outcome == Succeeded ==>
                && View() == old(View()).ClearedForm() && refetch
                && notice == Success(if old(editingTodo).Some? then "Task updated successfully"
                                     else "Task added successfully")
      ensures !req.NoRequest? && outcome == Failed ==>
                && View() == old(View()) && !refetch
                && notice == Failure(if old(editingTodo).Some? then "Error updating task"
                                     else "Error adding task")
    {
      var text := Trim(newTodo);
      if text == [] || !Known(userId) {
        return NoRequest, NoNotice, false;
      }
      if editingTodo.Some? {
        req := UpdateTask(EditPatch(text, priority), editingTodo.value.id, userId.value);
      } else {
        req := InsertTask(TaskInsert(userId.value, text, None, priority, Some(Some(DatePart(nowIso))), activeTab));
      }
      if outcome == Failed {
        notice := Failure(if editingTodo.Some? then "Error updating task" else "Error adding task");
        return req, notice, false;
      }
      notice := Success(if editingTodo.Some? then "Task updated successfully" else "Task added successfully");
      newTodo := "";
      priority := Medium;
      editingTodo := None;
      refetch := true;
    }

    /** Entering edit mode: the form takes the task's text and priority. */
    method StartEditing(todo: Task)
      modifies this
      ensures View() == old(View()).(editingTodo := Some(todo), newTodo := todo.text, priority := todo.priority)
    {
      editingTodo := Some(todo);
      newTodo := todo.text;
      priority := todo.priority;
    }

    /** Leaving edit mode: the form goes back to its initial defaults. */
    method CancelEditing()
      modifies this
      ensures View() == old(View()).ClearedForm()
    {
      editingTodo := None;
      newTodo := "";
      priority := Medium;
    }

    /**
     * Toggling a task's completion. Nothing is sent for an unknown user or an id not in
     * the list; the view itself never changes; success asks for a refetch.
     */
    method Toggle(id: string, outcome: Outcome) returns (req: TaskRequest, notice: Notice, refetch: bool)
      modifies this
      ensures req == ToggleRequest(old(todos), old(userId), id)
      ensures View() == old(View())
      ensures refetch == (!req.NoRequest? && outcome == Succeeded)
      ensures notice == (if !req.NoRequest? && outcome == Failed then Failure("Error updating task") else NoNotice)
    {
      req, notice, refetch := NoRequest, NoNotice, false;
      if !Known(userId) {
        return;
      }
      var todo := FindById(todos, TaskId, id);
      if todo.None? {
        return;
      }
      req := UpdateTask(CompletionPatch(!todo.value.completed), id, userId.value);
      if outcome == Succeeded {
        refetch := true;
      } else {
        notice := Failure("Error updating task");
      }
    }

    /**
     * Deleting a task. With a known user, edit mode is cancelled first when the task
     * being deleted is the one being edited, whatever the request's outcome.
     */
    method Delete(id: string, outcome: Outcome) returns (req: TaskRequest, notice: Notice, refetch: bool)
      modifies this
      ensures !Known(old(userId)) ==> req == NoRequest && View() == old(View()) && notice == NoNotice && !refetch
      ensures Known(old(userId)) ==>
                && req == DeleteTask(id, old(userId).value)
                && View() == (if old(editingTodo).Some? && old(editingTodo).value.id == id
                              then old(View()).ClearedForm() else old(View()))
                && refetch == (outcome == Succeeded)
                && notice == (if outcome == Succeeded then Success("Task deleted successfully")
                              else Failure("Error deleting task"))
    {
      if !Known(userId) {
        return NoRequest, NoNotice, false;
      }
      if editingTodo.Some? && editingTodo.value.id == id {
        CancelEditing();
      }
      req := DeleteTask(id, userId.value);
      if outcome == Succeeded {
        notice, refetch := Success("Task deleted successfully"), true;
      } else {
        notice, refetch := Failure("Error deleting task"), false;
      }
    }
  }

  /**
   * A client session: with a known user and a task in the list, toggle it, refetch a list
   * in which that task shows the update, and toggle again. The second request sets the
   * flag back to the task's original value.
   */
  method ToggleTwice(board: TaskBoard, t: Task, refetched: seq<Task>) returns (first: TaskRequest, second: TaskRequest)
    requires Known(board.userId) && Lookup(board.todos, TaskId, t.id) == Some(t)
    requires Lookup(refetched, TaskId, t.id) == Some(ApplyTaskUpdate(t, CompletionPatch(!t.completed)))
    modifies board
    ensures first == UpdateTask(CompletionPatch(!t.completed), t.id, old(board.userId).value)
    ensures second == UpdateTask(CompletionPatch(t.completed), t.id, old(board.userId).value)
  {
    var notice, refetch;
    first, notice, refetch := board.Toggle(t.id, Succeeded);
    var _, _ := board.Fetch(Fetched(Some(refetched)));
    second, notice, refetch := board.Toggle(t.id, Succeeded);
  }
}
