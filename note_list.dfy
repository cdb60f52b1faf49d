/** The notes page (`NoteList`): the excerpt shown on each card, the
    validation of the note form, and the page state the dialog and the
    server's answers update. */
module NoteList {
  import opened Wrappers
  import opened Text
  import opened Models
  import opened Lists

  /** Characters of the excerpt at most, before the ellipsis. */
  const EXCERPT_LENGTH := 120
  const ELLIPSIS := "..."

  /** The Markdown characters (and the line break) the excerpt blanks out. */
  const MARKUP: set<char> := {'#', '*', '`', '\n'}

  /** The content with markup blanked out and the ends trimmed. */
  function PlainText(content: string): (r: string)
    ensures forall i :: 0 <= i < |r| ==> r[i] !in MARKUP
    ensures IsTrimmed(r)
  {
    var blanked := ReplaceAll(content, MARKUP, ' ');
    Trim(blanked)
  }

  /** `getContentExcerpt`: the plain text when it has at most 120
      characters, else its first 120 followed by an ellipsis. */
  function GetContentExcerpt(content: string): (r: string)
    ensures forall i :: 0 <= i < |r| ==> r[i] !in MARKUP
    ensures |r| <= EXCERPT_LENGTH + |ELLIPSIS|
    ensures |PlainText(content)| <= EXCERPT_LENGTH ==> r == PlainText(content)
    ensures |PlainText(content)| > EXCERPT_LENGTH ==> r == PlainText(content)[..EXCERPT_LENGTH] + ELLIPSIS
  {
    var plain := PlainText(content);
    if |plain| > EXCERPT_LENGTH then
      plain[..EXCERPT_LENGTH] + ELLIPSIS
    else plain
  }

  /** Blanking out markup in a string that has none changes nothing. */
  lemma ReplaceAbsent(s: string, chars: set<char>, with: char)
    requires forall i :: 0 <= i < |s| ==> s[i] !in chars
    ensures ReplaceAll(s, chars, with) == s
  {
  }

  /** An excerpt starts and ends without white space and holds no markup,
      so it is its own plain text. */
  lemma ExcerptIsPlain(content: string)
    ensures PlainText(GetContentExcerpt(content)) == GetContentExcerpt(content)
  {
    var plain := PlainText(content);
    var r := GetContentExcerpt(content);
    ReplaceAbsent(r, MARKUP, ' ');
    if |plain| > EXCERPT_LENGTH {
      assert r[0] == plain[0] && r[|r| - 1] == '.';
    }
    assert IsTrimmed(r);
    TrimOfTrimmed(r);
  }

  /** An excerpt is its own excerpt. */
  lemma ExcerptIdempotent(content: string)
    ensures GetContentExcerpt(GetContentExcerpt(content)) == GetContentExcerpt(content)
  {
    var plain := PlainText(content);
    var r := GetContentExcerpt(content);
    ExcerptIsPlain(content);
    if |plain| > EXCERPT_LENGTH {
      assert r[..EXCERPT_LENGTH] == plain[..EXCERPT_LENGTH];
    }
  }

  /** The body of the create and update calls: the fields as typed. */
  datatype NoteRequest = NoteRequest(title: string, content: string)

  /** What `saveNote` does before the server answers. */
  datatype SaveNoteOutcome =
    | Invalid                                           // a blank field: warning shown, nothing sent
    | NoTarget                                          // editing without a note: nothing sent
    | CreateNote(request: NoteRequest)
    | UpdateNote(noteId: string, request: NoteRequest)
  {
    /** `isSavingNote` is set once validation passes, even when no
        request follows. */
    predicate SetsSaving() {
      !Invalid?
    }
  }

  /** `saveNote` with `createNote`/`updateNote`: both fields must be
      non-blank once trimmed, yet the request carries them untrimmed. */
  function SaveNote(title: string, content: string, editing: bool, currentNote: Option<Note>): (o: SaveNoteOutcome)
    ensures o == Invalid <==> IsBlank(title) || IsBlank(content)
    ensures o.CreateNote? <==> !IsBlank(title) && !IsBlank(content) && !editing
    ensures o.UpdateNote? <==> !IsBlank(title) && !IsBlank(content) && editing && currentNote.Some?
    ensures o.CreateNote? || o.UpdateNote? ==> o.request == NoteRequest(title, content)
    ensures o.UpdateNote? ==> o.noteId == currentNote.value.id
  {
    if Trim(title) == [] || Trim(content) == [] then Invalid
    else if editing then
      (if currentNote.None? then NoTarget else UpdateNote(currentNote.value.id, NoteRequest(title, content)))
    else CreateNote(NoteRequest(title, content))
  }

  function NoteId(n: Note): string { n.id }

  class NoteListPage {
    var notes: seq<Note>
    var showNoteDialog: bool
    var isEditingNote: bool
    var isSavingNote: bool
    var currentNote: Option<Note>
    var noteTitle: string
    var noteContent: string

    /** A closed dialog holds an empty form and no note. */
    predicate Valid()
      reads this
    {
      !showNoteDialog ==> currentNote.None? && noteTitle == "" && noteContent == ""
    }

    constructor ()
      ensures Valid() && notes == [] && !showNoteDialog && !isEditingNote && !isSavingNote
    {
      notes := [];
      showNoteDialog := false;
      isEditingNote := false;
      isSavingNote := false;
      currentNote := None;
      noteTitle := "";
      noteContent := "";
    }

    /** `openCreateNoteDialog`: an empty form for a new note. */
    method OpenCreateNoteDialog()
      modifies this
      ensures Valid() && showNoteDialog && !isEditingNote && currentNote.None? && noteTitle == "" && noteContent == ""
      ensures notes == old(notes) && isSavingNote == old(isSavingNote)
    {
      isEditingNote := false;
      currentNote := None;
      noteTitle := "";
      noteContent := "";
      showNoteDialog := true;
    }

    /** `openEditNoteDialog`: the form filled from `note`. */
    method OpenEditNoteDialog(note: Note)
      modifies this
      ensures Valid() && showNoteDialog && isEditingNote && currentNote == Some(note)
      ensures noteTitle == note.title && noteContent == note.content
      ensures notes == old(notes) && isSavingNote == old(isSavingNote)
    {
      isEditingNote := true;
      currentNote := Some(note);
      noteTitle := note.title;
      noteContent := note.content;
      showNoteDialog := true;
    }

    /** `closeNoteDialog`: hides the dialog and empties the form. */
    method CloseNoteDialog()
      modifies this
      ensures Valid() && !showNoteDialog && currentNote.None? && noteTitle == "" && noteContent == ""
      ensures notes == old(notes) && isEditingNote == old(isEditingNote) && isSavingNote == old(isSavingNote)
    {
      showNoteDialog := false;
      currentNote := None;
      noteTitle := "";
      noteContent := "";
    }

    /** `saveNote`: the outcome for the current form; only the saving flag changes. */
    method SaveNoteClicked() returns (o: SaveNoteOutcome)
      requires Valid()
      modifies this
      ensures Valid()
      ensures o == SaveNote(noteTitle, noteContent, isEditingNote, currentNote)
      ensures isSavingNote == (old(isSavingNote) || o.SetsSaving())
      ensures notes == old(notes) && showNoteDialog == old(showNoteDialog) && currentNote == old(currentNote)
      ensures noteTitle == old(noteTitle) && noteContent == old(noteContent) && isEditingNote == old(isEditingNote)
    {
      o := SaveNote(noteTitle, noteContent, isEditingNote, currentNote);
      isSavingNote := isSavingNote || o.SetsSaving();
    }

    /** The server created `note`: it goes first, and the dialog closes. */
    method NoteCreated(note: Note)
      modifies this
      ensures Valid() && notes == [note] + old(notes) && !showNoteDialog && !isSavingNote
      ensures isEditingNote == old(isEditingNote)
    {
      notes := [note] + notes;
      CloseNoteDialog();
      isSavingNote := false;
    }

    /** The server updated a note: every note with its id is replaced. */
    method NoteUpdated(updated: Note)
      modifies this
      ensures Valid() && notes == ReplaceById(old(notes), updated, NoteId) && !showNoteDialog && !isSavingNote
      ensures isEditingNote == old(isEditingNote)
    {
      notes := ReplaceById(notes, updated, NoteId);
      CloseNoteDialog();
      isSavingNote := false;
    }

    /** The server refused a save: the dialog stays open with its form. */
    method SaveFailed()
      requires Valid()
      modifies this
      ensures Valid() && !isSavingNote && notes == old(notes) && showNoteDialog == old(showNoteDialog)
      ensures noteTitle == old(noteTitle) && noteContent == old(noteContent) && currentNote == old(currentNote)
      ensures isEditingNote == old(isEditingNote)
    {
      isSavingNote := false;
    }

    /** The server deleted the note with `id`: every note with that id goes. */
    method NoteDeleted(id: string)
      requires Valid()
      modifies this
      ensures Valid() && notes == RemoveById(old(notes), id, NoteId)
      ensures showNoteDialog == old(showNoteDialog) && isSavingNote == old(isSavingNote)
      ensures noteTitle == old(noteTitle) && noteContent == old(noteContent) && currentNote == old(currentNote)
      ensures isEditingNote == old(isEditingNote)
    {
      notes := RemoveById(notes, id, NoteId);
    }
  }
}
