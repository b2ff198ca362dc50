/** The notes section the application mounts: it keeps its own list of notes
    with a subtitle and a creation time, and holds the five form fields
    itself; adding trims the texts, prepends the note and resets the form. */
module LegacyNotesSection {
  import opened Wrappers
  import opened Text
  import opened Seqs

  /** This section's note record; `createdAt` is a time in milliseconds. */
  datatype LegacyNote = LegacyNote(
    id: string,
    title: string,
    subtitle: string,
    content: string,
    reminderEnabled: bool,
    reminderDateTime: string,
    createdAt: int)

  /** The five form fields. */
  datatype Fields = Fields(
    title: string,
    subtitle: string,
    currentNote: string,
    reminderEnabled: bool,
    reminderDateTime: string)

  const EmptyForm := Fields("", "", "", false, "")

  /** The "Add Note" button is disabled exactly when title and content are
      both blank. */
  function AddDisabled(f: Fields): (disabled: bool)
    ensures disabled <==> AllWhitespace(f.title) && AllWhitespace(f.currentNote)
  {
    Trim(f.title) == "" && Trim(f.currentNote) == ""
  }

  /** The note `handleAddNote` builds from the form, or None when its guard
      rejects the form. */
  function Accept(f: Fields, id: string, createdAt: int): (r: Option<LegacyNote>)
    ensures r.None? <==> AddDisabled(f)
    ensures r.Some? ==>
      && r.value.id == id && r.value.createdAt == createdAt
      && r.value.title == Trim(f.title) && r.value.subtitle == Trim(f.subtitle)
      && r.value.content == Trim(f.currentNote)
      && r.value.reminderEnabled == f.reminderEnabled
      && r.value.reminderDateTime == (if f.reminderEnabled then f.reminderDateTime else "")
    ensures r.Some? ==> r.value.title != "" || r.value.content != ""
  {
    if Trim(f.title) == "" && Trim(f.currentNote) == "" then None
    else Some(LegacyNote(id, Trim(f.title), Trim(f.subtitle), Trim(f.currentNote),
      f.reminderEnabled, if f.reminderEnabled then f.reminderDateTime else "", createdAt))
  }

  /** The filter test of `handleDeleteNote`. */
  function OtherThan(id: string): LegacyNote -> bool {
    (n: LegacyNote) => n.id != id
  }

  /** `handleDeleteNote`: every note but those with the given id. */
  function DeleteNote(notes: seq<LegacyNote>, id: string): (r: seq<LegacyNote>)
    ensures |r| <= |notes|
    ensures forall i :: 0 <= i < |r| ==> r[i].id != id && r[i] in notes
    ensures forall i :: 0 <= i < |notes| && notes[i].id != id ==> notes[i] in r
  {
    Filter(notes, OtherThan(id))
  }

  /** Deleting keeps the surviving notes in their order. */
  lemma DeleteNoteKeepsOrder(a: seq<LegacyNote>, b: seq<LegacyNote>, id: string)
    ensures DeleteNote(a + b, id) == DeleteNote(a, id) + DeleteNote(b, id)
  {
    FilterAppend(a, b, OtherThan(id));
  }

  /** Deleting an id no note has leaves the list as it is. */
  lemma DeleteAbsentNote(notes: seq<LegacyNote>, id: string)
    requires forall i :: 0 <= i < |notes| ==> notes[i].id != id
    ensures DeleteNote(notes, id) == notes
  {
    FilterKeepsAll(notes, OtherThan(id));
  }

  /** The mounted section: the list and the form's five state variables. */
  class NotesBoard {
    var notes: seq<LegacyNote>
    var title: string
    var subtitle: string
    var currentNote: string
    var reminderEnabled: bool
    var reminderDateTime: string

    function Form(): Fields
      reads this
    {
      Fields(title, subtitle, currentNote, reminderEnabled, reminderDateTime)
    }

    constructor ()
      ensures notes == [] && Form() == EmptyForm
    {
      notes := [];
      title, subtitle, currentNote := "", "", "";
      reminderEnabled, reminderDateTime := false, "";
    }

    /** `handleAddNote` with the generated id and the current time. */
    method Add(id: string, createdAt: int)
      modifies this
      ensures Accept(old(Form()), id, createdAt).None? ==> notes == old(notes) && Form() == old(Form())
      ensures Accept(old(Form()), id, createdAt).Some? ==>
        notes == [Accept(old(Form()), id, createdAt).value] + old(notes) && Form() == EmptyForm
    {
      if Trim(title) == "" && Trim(currentNote) == "" {
        return;
      }
      var newNote := LegacyNote(id, Trim(title), Trim(subtitle), Trim(currentNote),
        reminderEnabled, if reminderEnabled then reminderDateTime else "", createdAt);
      notes := [newNote] + notes;
      title := "";
      subtitle := "";
      currentNote := "";
      reminderEnabled := false;
      reminderDateTime := "";
    }

    /** `handleDeleteNote`. */
    method Delete(id: string)
      modifies this
      ensures notes == DeleteNote(old(notes), id) && Form() == old(Form())
    {
      notes := Filter(notes, OtherThan(id));
    }
  }
}
