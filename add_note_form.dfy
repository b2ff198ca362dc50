/** The add-note form of the notes section: it holds four fields, hands a
    trimmed note draft to its parent on submit, and then clears itself. */
module AddNoteForm {
  import opened Wrappers
  import opened Text
  import opened Types

  /** The four form fields. */
  datatype Fields = Fields(
    title: string,
    content: string,
    reminderEnabled: bool,
    reminderDateTime: string)

  const EmptyForm := Fields("", "", false, "")

  /** The draft `handleSubmit` passes to `onAddNote`, or None when its guard
      (title and content both blank) rejects the form. */
  function Payload(f: Fields): (r: Option<NoteDraft>)
    ensures r.None? <==> AllWhitespace(f.title) && AllWhitespace(f.content)
    ensures r.Some? ==>
      && r.value.title == Trim(f.title) && r.value.content == Trim(f.content)
      && r.value.reminderEnabled == f.reminderEnabled
      && r.value.reminderDateTime == (if f.reminderEnabled then f.reminderDateTime else "")
  {
    if Trim(f.title) == "" && Trim(f.content) == "" then None
    else Some(NoteDraft(Trim(f.title), Trim(f.content), f.reminderEnabled,
      if f.reminderEnabled then f.reminderDateTime else ""))
  }

  /** The submit button is disabled when title and content are both blank,
      or when a reminder is enabled without a date. */
  function SubmitDisabled(f: Fields): (disabled: bool)
    ensures disabled <==>
      (AllWhitespace(f.title) && AllWhitespace(f.content)) || (f.reminderEnabled && f.reminderDateTime == "")
  {
    (Trim(f.title) == "" && Trim(f.content) == "") || (f.reminderEnabled && f.reminderDateTime == "")
  }

  /** Whatever the enabled button submits is a draft, and an enabled
      reminder in it carries a date. */
  lemma EnabledButtonSubmitsDatedDraft(f: Fields)
    requires !SubmitDisabled(f)
    ensures Payload(f).Some?
    ensures Payload(f).value.reminderEnabled ==> Payload(f).value.reminderDateTime != ""
  {
  }

  /** The handler itself does not check the date: exactly the forms whose
      button is disabled only for a missing date still produce a draft, and
      that draft is an undated reminder. */
  lemma HandlerAcceptsUndatedReminder(f: Fields)
    ensures SubmitDisabled(f) && Payload(f).Some? <==>
      !(AllWhitespace(f.title) && AllWhitespace(f.content)) && f.reminderEnabled && f.reminderDateTime == ""
    ensures SubmitDisabled(f) && Payload(f).Some? ==>
      Payload(f).value.reminderEnabled && Payload(f).value.reminderDateTime == ""
  {
  }

  /** Such a form exists: a titled reminder without a date. */
  lemma UndatedReminderExample()
    ensures SubmitDisabled(Fields("Call", "", true, ""))
    ensures Payload(Fields("Call", "", true, "")) == Some(NoteDraft("Call", "", true, ""))
  {
    var f := Fields("Call", "", true, "");
    assert LeadingSpace(f.title) == 0 && TrailingSpace(f.title) == 0;
    assert Trim(f.title) == f.title;
    assert Trim(f.content) == "";
  }

  /** The mounted form's four state variables. */
  class NoteForm {
    var title: string
    var content: string
    var reminderEnabled: bool
    var reminderDateTime: string

    function Current(): Fields
      reads this
    {
      Fields(title, content, reminderEnabled, reminderDateTime)
    }

    constructor ()
      ensures Current() == EmptyForm
    {
      title, content := "", "";
      reminderEnabled, reminderDateTime := false, "";
    }

    /** `handleSubmit`: the `onAddNote` call it makes (None for no call). */
    method Submit() returns (call: Option<NoteDraft>)
      modifies this
      ensures call == Payload(old(Current()))
      ensures Current() == if call.Some? then EmptyForm else old(Current())
    {
      if Trim(title) == "" && Trim(content) == "" {
        return None;
      }
      call := Some(NoteDraft(Trim(title), Trim(content), reminderEnabled,
        if reminderEnabled then reminderDateTime else ""));
      title := "";
      content := "";
      reminderEnabled := false;
      reminderDateTime := "";
    }
  }
}
