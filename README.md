# TaskFlow views: a verified model

TaskFlow is a personal tasks-and-notes web application over a hosted backend. This
project models the three parts of its client that follow precise rules:

- the **sign-in / sign-up form** (`src/pages/Auth.tsx`): the three input checks, the
  e-mail pattern `^[^\s@]+@[^\s@]+\.[^\s@]+$`, the mapping of provider errors to
  messages, and the form's mode and loading flag across a submit and a mode switch;
- the **task view** (`src/pages/Tasks.tsx`): its fields (`todos`, `newTodo`, `priority`,
  `activeTab`, `editingTodo`, `loading`, `userId`) and its handlers (fetch, submit,
  start and cancel editing, toggle, delete), plus the priority colour switch;
- the **notes view** (`src/pages/Notes.tsx`): the same shape over `notes`, `title`,
  `content`, `editingNote`, `loading`, `userId`, with a pin toggle and no category.

Each handler is a method of a class whose fields are the view's state. It returns the
backend request it would send (a value such as `UpdateTask(patch, id, userId)`, or
`NoRequest`), the toast it shows (`Notice`), and whether it starts a refetch. The
backend's answer (`Outcome`, or a `FetchOutcome` carrying the rows) is a parameter.
The current time and the page origin are parameters too. The request each submit or
toggle sends is also given as a function (`SubmitRequest`, `ToggleRequest`,
`TogglePinRequest`). Lemmas about those functions state what requests carry.

Files and modules:

- `Nullable.dfy`: `Option`, the model of `T | null`.
- `Text.dfy`: the ECMAScript string operations used: `trim`, the white-space class `\s`,
  `includes` and `split('T')[0]`.
- `DatabaseTypes.dfy`: the row, insert and update types of the `tasks` and `notes`
  tables (`src/lib/database.types.ts:12-69`) and what applying a partial update means.
- `Effects.dfy`: outcomes, notices, JavaScript truthiness of a user id, and
  `find`-by-id as a function and as a loop.
- `EmailPattern.dfy`: a hand-written automaton for the e-mail pattern, a declarative
  description of the strings it accepts, and the proof that the two agree.
- `Auth.dfy`, `Tasks.dfy`, `Notes.dfy`: the three views.

A failed toggle shows the same text as a failed edit, "Error updating task"
(`src/pages/Tasks.tsx:82`, `:115`); the same holds for notes, "Error updating note"
(`src/pages/Notes.tsx:79`, `:135`).

## Model

| member | source | states |
|---|---|---|
| Text.Trim | src/pages/Auth.tsx:13 | `trim` gives the empty string exactly when the input is all white space. Otherwise the result neither starts nor ends with white space. Either way it is a contiguous slice of the input with only white space around it. |
| Text.IncludesIff | src/pages/Auth.tsx:60-64 | The scan behind `includes` holds exactly when the phrase occurs at some index of the message. |
| Text.BeforeFirst | src/pages/Tasks.tsx:68 | `split('T')[0]` is a prefix of the input that holds no `T`. It is followed in the input by a `T` unless it is the whole input. |
| EmailPattern.MatchesIffShape | src/pages/Auth.tsx:17 | The scanner accepts a string exactly when it is a non-empty run of `[^\s@]`, then `@`, then a run of `[^\s@]` holding a `.` at neither its first nor its last position. |
| EmailPattern.ShapeAroundAt | src/pages/Auth.tsx:17 | Given an `@` at a position, the string has the e-mail shape exactly when all of these hold: something precedes the `@`, the string has no white space, that `@` is its only one, and the part after it holds an inner `.`. |
| EmailPattern.NoAtNoShape | src/pages/Auth.tsx:17 | A string without `@` never has the e-mail shape. |
| Auth.Validate | src/pages/Auth.tsx:12-26 | The result is exactly one of four outcomes, and the first failing check wins. "Empty field" is returned exactly when the e-mail or the password is all white space. "Malformed e-mail" is returned exactly when both are non-blank and the e-mail lacks the shape. "Short password" is returned exactly when those pass and the untrimmed password has fewer than 6 characters. "Valid" is returned exactly when all three pass. |
| Auth.ValidEmailIsTrimmed | src/pages/Auth.tsx:17 | An e-mail that passes validation has no white space, so the raw e-mail sent equals its trim. |
| Auth.PaddedPasswordPasses | src/pages/Auth.tsx:21-24 | Length is measured before trimming: `"  ab  "` passes with a well-formed e-mail, although its trim is only 2 characters long. |
| Auth.FourCharacterPasswordIsShort | src/pages/Auth.tsx:21-24 | `user@test.com` with a 4-character password fails on length alone. |
| Auth.ErrorMessage | src/pages/Auth.tsx:57-71 | A non-`Error` value gives the generic message. For an `Error`, the first phrase of the ordered list that occurs in the message decides the text. When no phrase occurs, the raw message is shown. |
| Auth.UnconfirmedBeatsBadCredentials | src/pages/Auth.tsx:60-63 | A message holding both "Email not confirmed" and "Invalid login credentials" gets the confirmation text: the earlier phrase wins. |
| Auth.Mode.Toggled | src/pages/Auth.tsx:78 | Toggling always gives the other mode. |
| Auth.AuthForm.constructor | src/pages/Auth.tsx:7-10 | The form starts with empty fields, not loading, in sign-in mode. |
| Auth.AuthForm.EditEmail | src/pages/Auth.tsx:113 | Typing sets the e-mail and changes nothing else. |
| Auth.AuthForm.EditPassword | src/pages/Auth.tsx:129 | Typing sets the password and changes nothing else. |
| Auth.AuthForm.Submit | src/pages/Auth.tsx:28-75 | A failed validation sends nothing, shows that check's message, and leaves `mode` and `loading` unchanged. Otherwise the raw e-mail and password go to sign-up (with the origin as redirect target) or to sign-in, according to the mode. Only a successful sign-up switches to sign-in. Loading ends false. The toast is the success text or the mapped error. |
| Auth.AuthForm.Authenticate | src/pages/Auth.tsx:32-55 | The provider call of a validated submit keeps both fields. It sends sign-up with the redirect target in sign-up mode and sign-in otherwise. Only an accepted sign-up moves the form to sign-in. Loading ends false, and the toast is the mode's success text or the mapped error. |
| Auth.AuthForm.SwitchMode | src/pages/Auth.tsx:77-81 | The mode flips and both fields are cleared. |
| Auth.SwitchTwice | src/pages/Auth.tsx:77-81 | Switching twice restores the original mode and leaves both fields empty. |
| Effects.LookupFindsFirst | src/pages/Tasks.tsx:102 | `find` by id gives nothing exactly when no element has the id. Otherwise it gives the element at the first index with that id. |
| Effects.FindById | src/pages/Tasks.tsx:102 | The search loop returns what `find` specifies. |
| Tasks.PriorityColor | src/pages/Tasks.tsx:142-149 | The fallback blue is used exactly for strings that name no priority. |
| Tasks.PriorityColorsDistinct | src/pages/Tasks.tsx:142-149 | Different priorities get different colours. |
| Tasks.SubmitRequest | src/pages/Tasks.tsx:44-74 | Nothing is sent exactly when the text is blank or the user is unknown. In edit mode an update of the edited task's id and the user is sent, carrying only the trimmed text and the priority. Otherwise an insert is sent with the trimmed text, the priority, the active category, today's date as due date, and the user. |
| Tasks.EditKeepsOtherFields | src/pages/Tasks.tsx:49-57 | Applying the edit update changes a row's text and priority only. Category, due date and completion are kept. |
| Tasks.ToggleRequest | src/pages/Tasks.tsx:98-109 | Nothing is sent exactly when the user is unknown or no listed task has the id. Otherwise the request is an update of that id that sets `completed` alone, to the negation of the first such task's flag. |
| Tasks.ToggleTwiceRestores | src/pages/Tasks.tsx:98-112 | If the list fetched after the first toggle shows the updated row, the second toggle's update restores the row. |
| Tasks.TaskBoard.constructor | src/pages/Tasks.tsx:8-14 | The initial state is: empty list, empty text, medium priority, short-term tab, no edit, loading, no user. These form values are the defaults the form is cleared to. |
| Tasks.TaskBoard.Identify | src/pages/Tasks.tsx:16-24 | When the user lookup answers with a user, the id is recorded and a fetch starts. With no user, nothing changes. |
| Tasks.TaskBoard.SelectTab | src/pages/Tasks.tsx:164-181 | A tab click sets `activeTab` only. |
| Tasks.TaskBoard.EditText | src/pages/Tasks.tsx:191 | Typing sets `newTodo` only. |
| Tasks.TaskBoard.ChoosePriority | src/pages/Tasks.tsx:198 | The selector sets `priority` only. |
| Tasks.TaskBoard.Fetch | src/pages/Tasks.tsx:26-42 | The request selects the active category, newest first. Success replaces `todos`, with null giving the empty list. Failure keeps `todos` and shows an error. `loading` is false after either. |
| Tasks.TaskBoard.Submit | src/pages/Tasks.tsx:44-84 | The method sends `SubmitRequest`. With nothing to send, nothing changes. On success the form is cleared and a refetch starts. On failure the state is untouched, and the message says "updating" exactly when an edit was in progress. |
| Tasks.TaskBoard.StartEditing | src/pages/Tasks.tsx:86-90 | The task is recorded, and its text and priority are copied into the form. |
| Tasks.TaskBoard.CancelEditing | src/pages/Tasks.tsx:92-96 | The form returns to the initial defaults: `''`, medium, no edit. |
| Tasks.TaskBoard.Toggle | src/pages/Tasks.tsx:98-117 | The method sends `ToggleRequest` over the current list and never changes the view. Success starts a refetch; failure shows an error. |
| Tasks.TaskBoard.Delete | src/pages/Tasks.tsx:119-140 | With no user, nothing happens. Otherwise a delete by id and user is sent. Edit mode is cancelled exactly when the deleted id is the edited task's, whatever the outcome, so an edit of another task is kept. Success starts a refetch. |
| Tasks.ToggleTwice | src/pages/Tasks.tsx:98-117 | For any list whose first task with the id is `t`, a toggle, a refetch of any list whose first task with that id shows the update, and a second toggle send `!completed` first and then the original flag. |
| Notes.SubmitRequest | src/pages/Notes.tsx:43-71 | Nothing is sent unless the title and content are both non-blank and the user is known. In edit mode an update of the edited note's id and the user is sent, carrying only the trimmed title and content and never `pinned`. Otherwise an insert of the trimmed title and content and the user is sent, without `pinned`. |
| Notes.EditKeepsPin | src/pages/Notes.tsx:48-56 | Applying the edit update changes a note's title and content only. Its pin is kept. |
| Notes.TogglePinRequest | src/pages/Notes.tsx:118-129 | Nothing is sent exactly when the user is unknown or no listed note has the id. Otherwise the request is an update of that id that sets `pinned` alone, to the negation of the first such note's flag. |
| Notes.TogglePinTwiceRestores | src/pages/Notes.tsx:118-132 | If the list fetched after the first toggle shows the updated row, the second toggle's update restores the row. |
| Notes.NoteBoard.constructor | src/pages/Notes.tsx:8-13 | The initial state is: empty list, empty title and content, no edit, loading, no user. |
| Notes.NoteBoard.Identify | src/pages/Notes.tsx:15-23 | When the user lookup answers with a user, the id is recorded and a fetch starts. With no user, nothing changes. |
| Notes.NoteBoard.EditTitle | src/pages/Notes.tsx:154 | Typing sets `title` only. |
| Notes.NoteBoard.EditContent | src/pages/Notes.tsx:160 | Typing sets `content` only. |
| Notes.NoteBoard.Fetch | src/pages/Notes.tsx:25-41 | The request orders pinned first, then newest first. Success replaces `notes`, with null giving the empty list. Failure keeps `notes` and shows an error. `loading` is false after either. |
| Notes.NoteBoard.Submit | src/pages/Notes.tsx:43-81 | The method sends `SubmitRequest`. With nothing to send, nothing changes. On success title, content and edit are cleared and a refetch starts. On failure the state is kept, and the message tells an update from an add. |
| Notes.NoteBoard.StartEditing | src/pages/Notes.tsx:83-87 | The note is recorded, and its title and content are copied into the form. |
| Notes.NoteBoard.CancelEditing | src/pages/Notes.tsx:89-93 | Title and content become `''` and no note is being edited. |
| Notes.NoteBoard.Delete | src/pages/Notes.tsx:95-116 | With no user, nothing happens. Otherwise a delete by id and user is sent. Edit mode is cancelled exactly when the deleted id is the edited note's, whatever the outcome. Success starts a refetch. |
| Notes.NoteBoard.TogglePin | src/pages/Notes.tsx:118-137 | The method sends `TogglePinRequest` over the current list and never changes the view. Success starts a refetch; failure shows an error. |

## Left out

- Backend calls (`getUser`, `signUp`, `signInWithPassword`, and the table `select`, `insert`, `update` and `delete`) belong to an external client library. Each is modelled only as a request value plus an outcome parameter. Server-side filtering by category, sorting, row-level security and last-write-wins are not modelled. A fetch outcome may carry any rows.
- Asynchronous timing is left out. The refetch after a mutation is not awaited in the source; here it is the `refetch` result, followed by a separate `Fetch` call. Double-submission races and the user id arriving through an effect are left out too. A tab switch is a plain assignment (`SelectTab`); the effect it re-runs is `Identify` followed by `Fetch`.
- Auth.AuthForm.Submit: `loading` is true while the provider call is pending. The model runs the whole submit in one call, so only the final `false` can be seen.
- Toasts and `console.error` are I/O. A toast is the returned `Notice`; logging is dropped.
- JSX, CSS classes, icons, the spinner shown while loading, the disabled submit button, and `e.preventDefault()` only affect rendering and are not modelled.
- `new Date().toISOString()` and `window.location.origin` read the clock and the environment, so they are parameters (`nowIso`, `origin`).
- Auth.Validate: strings are sequences of Unicode scalar values, not UTF-16 code units. So a password with characters outside the Basic Multilingual Plane is shorter here than its `length` in the source.
- `src/App.tsx` (session lookup, the auth-state subscription, routing) and `src/components/Header.tsx` (dropdown, outside-click listener, sign-out) are not part of this model.
- `src/lib/supabase.ts`, which defines the `Task` and `Note` aliases, is not part of this model. Those aliases are taken to be the `Row` types of `src/lib/database.types.ts`.
- Inserts never send `id` or `created_at`, which the database generates, so those optional insert properties are not represented. The same holds for the `id`, `user_id` and `created_at` properties of an update.
- The `user` object of the lookup is represented by its id alone (`Option<string>`).
