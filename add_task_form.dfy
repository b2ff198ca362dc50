/** The add-task form: one text field; submitting a non-blank text hands
    its trimmed form to the parent and clears the field. */
module AddTaskForm {
  import opened Wrappers
  import opened Text

  /** The `onAddTask` call `handleSubmit` makes for the field's text, if any. */
  function Submission(taskText: string): (r: Option<string>)
    ensures r.None? <==> AllWhitespace(taskText)
    ensures r.Some? ==> r.value == Trim(taskText)
    ensures r.Some? ==> r.value != [] && !IsWhitespace(r.value[0]) && !IsWhitespace(r.value[|r.value| - 1])
  {
    if Trim(taskText) != "" then Some(Trim(taskText)) else None
  }

  /** The add button is disabled exactly when the text is blank, that is,
      exactly when submitting would add nothing. */
  function AddDisabled(taskText: string): (disabled: bool)
    ensures disabled <==> AllWhitespace(taskText)
    ensures disabled <==> Submission(taskText).None?
  {
    Trim(taskText) == ""
  }

  /** The mounted form's one state variable. */
  class TaskForm {
    var taskText: string

    constructor ()
      ensures taskText == ""
    {
      taskText := "";
    }

    /** `handleSubmit`: the `onAddTask` call it makes (None for no call). */
    method Submit() returns (call: Option<string>)
      modifies this
      ensures call == Submission(old(taskText))
      ensures taskText == if call.Some? then "" else old(taskText)
    {
      if Trim(taskText) != "" {
        call := Some(Trim(taskText));
        taskText := "";
      } else {
        call := None;
      }
    }
  }
}
