/**
 * The row types of the two tables, `tasks` and `notes`, as the generated database
 * typings declare them, together with the shapes of what an insert and a partial
 * update may carry. An `Option` field of an insert or update is a property the
 * request may leave out; `None` means "not sent".
 */
module DatabaseTypes {
  import opened Nullable

  datatype Priority = Low | Medium | High

  datatype Category = ShortTerm | LongTerm

  /** The wire spelling of a priority. */
  function PriorityName(p: Priority): string {
    match p
    case Low => "low"
    case Medium => "medium"
    case High => "high"
  }

  /** A row of `tasks`. */
  datatype Task = Task(
    id: string,
    userId: string,
    text: string,
    completed: bool,
    priority: Priority,
    dueDate: Option<string>,
    category: Category,
    createdAt: string)

  /**
   * What an insert into `tasks` carries. The optional `id` and `created_at` are
   * generated by the database and never sent, so they are not represented.
   */
  datatype TaskInsert = TaskInsert(
    userId: string,
    text: string,
    completed: Option<bool>,
    priority: Priority,
    dueDate: Option<Option<string>>,
    category: Category)

  /** The properties a partial update of a `tasks` row may set. */
  datatype TaskUpdate = TaskUpdate(
    text: Option<string>,
    completed: Option<bool>,
    priority: Option<Priority>,
    dueDate: Option<Option<string>>,
    category: Option<Category>)

  /** A row of `notes`. */
  datatype Note = Note(
    id: string,
    userId: string,
    title: string,
    content: string,
    pinned: bool,
    createdAt: string)

  /** What an insert into `notes` carries (again without the generated `id` and `created_at`). */
  datatype NoteInsert = NoteInsert(
    userId: string,
    title: string,
    content: string,
    pinned: Option<bool>)

  /** The properties a partial update of a `notes` row may set. */
  datatype NoteUpdate = NoteUpdate(
    title: Option<string>,
    content: Option<string>,
    pinned: Option<bool>)

  /** The row that results from applying a partial update: each property sent replaces the old one. */
  function ApplyTaskUpdate(t: Task, u: TaskUpdate): Task
  {
    t.(text := u.text.GetOr(t.text),
       completed := u.completed.GetOr(t.completed),
       priority := u.priority.GetOr(t.priority),
       dueDate := u.dueDate.GetOr(t.dueDate),
       category := u.category.GetOr(t.category))
  }

  /** The same for a note. */
  function ApplyNoteUpdate(n: Note, u: NoteUpdate): Note
  {
    n.(title := u.title.GetOr(n.title),
       content := u.content.GetOr(n.content),
       pinned := u.pinned.GetOr(n.pinned))
  }

  /** The id of a task, as the key `find` compares. */
  function TaskId(t: Task): string { t.id }

  /** The id of a note. */
  function NoteId(n: Note): string { n.id }
}
