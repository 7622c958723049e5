/**
 * The notes view: its form and edit state, and for each handler the request it sends,
 * how it changes the state, and what it shows. As for tasks, the backend's answer is a
 * parameter and a refetch the handler starts is reported in `refetch`.
 */
module Notes {
  import opened Nullable
  import opened Text
  import opened DatabaseTypes
  import opened Effects

  /** A request to the `notes` table. */
  datatype NoteRequest =
    | NoRequest
    | SelectNotes(order: seq<Order>)
    | InsertNote(row: NoteInsert)
    | UpdateNote(patch: NoteUpdate, id: string, userId: string)
    | DeleteNote(id: string, userId: string)

  /** The order the list is asked for: pinned notes first, then newest first. */
  const NoteOrder: seq<Order> := [Order("pinned", false), Order("created_at", false)]

  /** The partial update of an edit: the trimmed title and content, never `pinned`. */
  function EditPatch(title: string, content: string): NoteUpdate {
    NoteUpdate(Some(title), Some(content), None)
  }

  /** The partial update of a pin toggle: the `pinned` flag alone. */
  function PinPatch(pinned: bool): NoteUpdate {
    NoteUpdate(None, None, Some(pinned))
  }

  /**
   * The request a submit sends: nothing unless title and content are both non-blank and
   * the user is known; an update of the edited note when editing; otherwise an insert.
   */
  function SubmitRequest(title: string, content: string, editing: Option<Note>,
                         userId: Option<string>): (r: NoteRequest)
    ensures r.NoRequest? <==> AllSpace(title) || AllSpace(content) || !Known(userId)
    ensures r.UpdateNote? <==> !r.NoRequest? && editing.Some?
    ensures r.InsertNote? <==> !r.NoRequest? && editing.None?
    ensures r.UpdateNote? ==>
              && r.id == editing.value.id && Some(r.userId) == userId
              && r.patch.title == Some(Trim(title)) && r.patch.content == Some(Trim(content))
              && r.patch.pinned.None?
    ensures r.InsertNote? ==>
              && Some(r.row.userId) == userId
              && r.row.title == Trim(title) && r.row.content == Trim(content)
              && r.row.pinned.None?
  {
    var t, c := Trim(title), Trim(content);
    if t == [] || c == [] || !Known(userId) then NoRequest
    else if editing.Some? then UpdateNote(EditPatch(t, c), editing.value.id, userId.value)
    else InsertNote(NoteInsert(userId.value, t, c, None))
  }

  /** Editing a note changes its title and content only: its pin stays as it was. */
  lemma EditKeepsPin(title: string, content: string, editing: Option<Note>,
                     userId: Option<string>, row: Note)
    requires SubmitRequest(title, content, editing, userId).UpdateNote?
    ensures var r := ApplyNoteUpdate(row, SubmitRequest(title, content, editing, userId).patch);
            r == row.(title := Trim(title), content := Trim(content)) && r.pinned == row.pinned
  {
  }

  /**
   * The request a pin toggle sends: nothing for an unknown user or an id not in the list;
   * otherwise an update setting `pinned` to the negation of the listed note's flag.
   */
  function TogglePinRequest(notes: seq<Note>, userId: Option<string>, id: string): (r: NoteRequest)
    ensures r.NoRequest? <==> !Known(userId) || forall i :: 0 <= i < |notes| ==> notes[i].id != id
    ensures !r.NoRequest? ==>
              exists i :: IsFirst(notes, NoteId, id, i)
                          && r == UpdateNote(PinPatch(!notes[i].pinned), id, userId.value)
  {
    LookupFindsFirst(notes, NoteId, id);
    if !Known(userId) then NoRequest
    else match Lookup(notes, NoteId, id)
      case None => NoRequest
      case Some(n) => UpdateNote(PinPatch(!n.pinned), id, userId.value)
  }

  /**
   * Toggling a pin twice restores it: if the list fetched after the first toggle shows the
   * note with the first update applied, the second toggle's update brings the row back.
   */
  lemma TogglePinTwiceRestores(notes: seq<Note>, refetched: seq<Note>, userId: Option<string>, id: string, n: Note)
    requires Known(userId) && Lookup(notes, NoteId, id) == Some(n)
    requires TogglePinRequest(notes, userId, id).UpdateNote?
    requires Lookup(refetched, NoteId, id) == Some(ApplyNoteUpdate(n, TogglePinRequest(notes, userId, id).patch))
    ensures TogglePinRequest(refetched, userId, id).UpdateNote?
    ensures ApplyNoteUpdate(ApplyNoteUpdate(n, TogglePinRequest(notes, userId, id).patch),
                            TogglePinRequest(refetched, userId, id).patch) == n
  {
  }

  /** A snapshot of every field of the view. */
  datatype NoteView = NoteView(
    notes: seq<Note>,
    title: string,
    content: string,
    editingNote: Option<Note>,
    loading: bool,
    userId: Option<string>)
  {
    /** The view with its form emptied and no note being edited. */
    function ClearedForm(): NoteView {
      this.(title := "", content := "", editingNote := None)
    }
  }

  class NoteBoard {
    var notes: seq<Note>
    var title: string
    var content: string
    var editingNote: Option<Note>
    var loading: bool
    var userId: Option<string>

    /** All of the fields at once. */
    function View(): NoteView
      reads this
    {
      NoteView(notes, title, content, editingNote, loading, userId)
    }

    /** The initial state: empty list and form, loading, no user yet. */
    constructor ()
      ensures View() == NoteView([], "", "", None, true, None)
      ensures View() == View().ClearedForm()
    {
      notes, title, content := [], "", "";
      editingNote, loading, userId := None, true, None;
    }

    /** The user lookup has answered: a user is recorded and the list is fetched. */
    method Identify(user: Option<string>) returns (refetch: bool)
      modifies this
      ensures View() == if user.Some? then old(View()).(userId := user) else old(View())
      ensures refetch == user.Some?
    {
      if user.Some? {
        userId := user;
      }
      refetch := user.Some?;
    }

    /** Typing into the title field. */
    method EditTitle(s: string)
      modifies this
      ensures View() == old(View()).(title := s)
    {
      title := s;
    }

    /** Typing into the content field. */
    method EditContent(s: string)
      modifies this
      ensures View() == old(View()).(content := s)
    {
      content := s;
    }

    /**
     * Loading the list, pinned first and then newest first. A success replaces the list
     * (`null` giving the empty list), a failure keeps it and says so; loading ends either way.
     */
    method Fetch(outcome: FetchOutcome<Note>) returns (req: NoteRequest, notice: Notice)
      modifies this
      ensures req == SelectNotes(NoteOrder)
      ensures outcome.Fetched? ==>
                View() == old(View()).(notes := outcome.data.GetOr([]), loading := false) && notice == NoNotice
      ensures outcome.FetchFailed? ==>
                View() == old(View()).(loading := false) && notice == Failure("Error loading notes")
    {
      req := SelectNotes(NoteOrder);
      match outcome {
        case Fetched(data) =>
          notes := data.GetOr([]);
          notice := NoNotice;
        case FetchFailed =>
          notice := Failure("Error loading notes");
      }
      loading := false;
    }

    /**
     * Submitting the form. Nothing happens unless title and content are non-blank and the
     * user is known. A successful request clears the form and asks for a refetch; a failed
     * one leaves everything as it was and names the edit or the add.
     */
    method Submit(outcome: Outcome) returns (req: NoteRequest, notice: Notice, refetch: bool)
      modifies this
      ensures req == SubmitRequest(old(title), old(content), old(editingNote), old(userId))
      ensures req.NoRequest? ==> View() == old(View()) && notice == NoNotice && !refetch
      ensures !req.NoRequest? && outcome == Succeeded ==>
                && View() == old(View()).ClearedForm() && refetch
                && notice == Success(if old(editingNote).Some? then "Note updated successfully"
                                     else "Note added successfully")
      ensures !req.NoRequest? && outcome == Failed ==>
                && View() == old(View()) && !refetch
                && notice == Failure(if old(editingNote).Some? then "Error updating note"
                                     else "Error adding note")
    {
      var t, c := Trim(title), Trim(content);
      if t == [] || c == [] || !Known(userId) {
        return NoRequest, NoNotice, false;
      }
      if editingNote.Some? {
        req := UpdateNote(EditPatch(t, c), editingNote.value.id, userId.value);
      } else {
        req := InsertNote(NoteInsert(userId.value, t, c, None));
      }
      if outcome == Failed {
        notice := Failure(if editingNote.Some? then "Error updating note" else "Error adding note");
        return req, notice, false;
      }
      notice := Success(if editingNote.Some? then "Note updated successfully" else "Note added successfully");
      title := "";
      content := "";
      editingNote := None;
      refetch := true;
    }

    /** Entering edit mode: the form takes the note's title and content. */
    method StartEditing(note: Note)
      modifies this
      ensures View() == old(View()).(editingNote := Some(note), title := note.title, content := note.content)
    {
      editingNote := Some(note);
      title := note.title;
      content := note.content;
    }

    /** Leaving edit mode: both fields emptied, no note being edited. */
    method CancelEditing()
      modifies this
      ensures View() == old(View()).ClearedForm()
    {
      editingNote := None;
      title := "";
      content := "";
    }

    /**
     * Deleting a note. With a known user, edit mode is cancelled first when the note
     * being deleted is the one being edited, whatever the request's outcome.
     */
    method Delete(id: string, outcome: Outcome) returns (req: NoteRequest, notice: Notice, refetch: bool)
      modifies this
      ensures !Known(old(userId)) ==> req == NoRequest && View() == old(View()) && notice == NoNotice && !refetch
      ensures Known(old(userId)) ==>
                && req == DeleteNote(id, old(userId).value)
                && View() == (if old(editingNote).Some? && old(editingNote).value.id == id
                              then old(View()).ClearedForm() else old(View()))
                && refetch == (outcome == Succeeded)
                && notice == (if outcome == Succeeded then Success("Note deleted successfully")
                              else Failure("Error deleting note"))
    {
      if !Known(userId) {
        return NoRequest, NoNotice, false;
      }
      if editingNote.Some? && editingNote.value.id == id {
        CancelEditing();
      }
      req := DeleteNote(id, userId.value);
      if outcome == Succeeded {
        notice, refetch := Success("Note deleted successfully"), true;
      } else {
        notice, refetch := Failure("Error deleting note"), false;
      }
    }

    /**
     * Pinning or unpinning a note. Nothing is sent for an unknown user or an id not in
     * the list; the view itself never changes; success asks for a refetch.
     */
    method TogglePin(id: string, outcome: Outcome) returns (req: NoteRequest, notice: Notice, refetch: bool)
      modifies this
      ensures req == TogglePinRequest(old(notes), old(userId), id)
      ensures View() == old(View())
      ensures refetch == (!req.NoRequest? && outcome == Succeeded)
      ensures notice == (if !req.NoRequest? && outcome == Failed then Failure("Error updating note") else NoNotice)
    {
      req, notice, refetch := NoRequest, NoNotice, false;
      if !Known(userId) {
        return;
      }
      var note := FindById(notes, NoteId, id);
      if note.None? {
        return;
      }
      req := UpdateNote(PinPatch(!note.value.pinned), id, userId.value);
      if outcome == Succeeded {
        refetch := true;
      } else {
        notice := Failure("Error updating note");
      }
    }
  }
}
