/** The notes section: the note list (prepend on add, filter on delete) and
    the reminder callback that chooses how a due reminder reaches the user
    from the notification permission. */
module NotesSection {
  import opened Wrappers
  import opened Text
  import opened Types
  import opened Seqs

  const DefaultTitle := "Note Reminder"
  const DefaultBody := "Your reminder is due!"

  /** The longest stretch of content an OS notification shows before cutting it off. */
  const PreviewLength: nat := 50

  /** `{ ...noteData, id, createdAt }`. */
  function NewNote(draft: NoteDraft, id: string, createdAt: string): Note {
    Note(id, draft.title, draft.content, draft.reminderEnabled, draft.reminderDateTime, createdAt)
  }

  /** `handleAddNote`: the new note goes in front of the existing ones. */
  function AddNote(notes: seq<Note>, draft: NoteDraft, id: string, createdAt: string): (r: seq<Note>)
    ensures |r| == |notes| + 1 && r[1..] == notes
    ensures r[0].id == id && r[0].createdAt == createdAt
    ensures r[0].title == draft.title && r[0].content == draft.content
    ensures r[0].reminderEnabled == draft.reminderEnabled && r[0].reminderDateTime == draft.reminderDateTime
  {
    [NewNote(draft, id, createdAt)] + notes
  }

  /** The filter test of `handleDeleteNote`. */
  function OtherThan(id: string): Note -> bool {
    (n: Note) => n.id != id
  }

  /** `handleDeleteNote`: every note but those with the given id. */
  function DeleteNote(notes: seq<Note>, id: string): (r: seq<Note>)
    ensures |r| <= |notes|
    ensures forall i :: 0 <= i < |r| ==> r[i].id != id && r[i] in notes
    ensures forall i :: 0 <= i < |notes| && notes[i].id != id ==> notes[i] in r
  {
    Filter(notes, OtherThan(id))
  }

  /** Deleting keeps the surviving notes in their order. */
  lemma DeleteNoteKeepsOrder(a: seq<Note>, b: seq<Note>, id: string)
    ensures DeleteNote(a + b, id) == DeleteNote(a, id) + DeleteNote(b, id)
  {
    FilterAppend(a, b, OtherThan(id));
  }

  lemma DeleteNoteIdempotent(notes: seq<Note>, id: string)
    ensures DeleteNote(DeleteNote(notes, id), id) == DeleteNote(notes, id)
  {
    FilterIdempotent(notes, OtherThan(id));
  }

  /** Deleting an id no note has leaves the list as it is. */
  lemma DeleteAbsentNote(notes: seq<Note>, id: string)
    requires forall i :: 0 <= i < |notes| ==> notes[i].id != id
    ensures DeleteNote(notes, id) == notes
  {
    FilterKeepsAll(notes, OtherThan(id));
  }

  /** Deleting a freshly added note by its (fresh) id restores the list. */
  lemma DeleteUndoesAdd(notes: seq<Note>, draft: NoteDraft, id: string, createdAt: string)
    requires forall i :: 0 <= i < |notes| ==> notes[i].id != id
    ensures DeleteNote(AddNote(notes, draft, id, createdAt), id) == notes
  {
    var added := AddNote(notes, draft, id, createdAt);
    assert added == [NewNote(draft, id, createdAt)] + notes;
    DeleteNoteKeepsOrder([NewNote(draft, id, createdAt)], notes, id);
    DeleteAbsentNote(notes, id);
  }

  /** The notification's headline: the note's title, or a generic one. */
  function NotificationTitle(note: Note): (t: string)
    ensures t != []
    ensures note.title != "" ==> t == note.title
    ensures note.title == "" ==> t == DefaultTitle
  {
    Or(note.title, DefaultTitle)
  }

  /** The notification's body: at most 50 characters of content and an
      ellipsis, or a generic line for an empty note. */
  function NotificationBody(content: string): (b: string)
    ensures b != [] && |b| <= PreviewLength + 3
    ensures |content| > PreviewLength ==>
      |b| == PreviewLength + 3 && b[..PreviewLength] == content[..PreviewLength] && b[PreviewLength..] == "..."
    ensures 0 < |content| <= PreviewLength ==> b == content
    ensures content == "" ==> b == DefaultBody
  {
    Or(Truncate(content, PreviewLength), DefaultBody)
  }

  /** What `handleReminderDue` does with a due note. */
  datatype ReminderOutcome =
    | Shown(notification: Alert)
    | PermissionRequested
    | NotShown

  /** `handleReminderDue`: an OS notification tagged with the note's id when
      permission is granted, a new permission request when it is undecided,
      and nothing when it is denied. */
  function ReminderDue(permission: Permission, note: Note): (r: ReminderOutcome)
    ensures r.Shown? <==> permission == Granted
    ensures permission == Default ==> r == PermissionRequested
    ensures permission == Denied ==> r == NotShown
    ensures r.Shown? ==>
      && r.notification.SystemNotification?
      && r.notification.tag == Some(note.id)
      && r.notification.title == NotificationTitle(note)
      && r.notification.body == NotificationBody(note.content)
  {
    match permission
    case Granted =>
      Shown(SystemNotification(NotificationTitle(note), NotificationBody(note.content), Some(note.id)))
    case Default => PermissionRequested
    case Denied => NotShown
  }
}
