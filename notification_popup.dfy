/** The in-page reminder popup: the headline and the body preview it shows
    for a note. */
module NotificationPopup {
  import opened Text
  import opened Types

  const DefaultTitle := "Note Reminder"
  const DefaultBody := "Your reminder is due!"

  /** The longest stretch of content the popup shows before cutting it off. */
  const PreviewLength: nat := 150

  /** The note's title, or a generic headline when it has none. */
  function PopupTitle(note: Note): (t: string)
    ensures t != []
    ensures note.title != "" ==> t == note.title
    ensures note.title == "" ==> t == DefaultTitle
  {
    Or(note.title, DefaultTitle)
  }

  /** The first 150 characters and an ellipsis for long content, the content
      itself otherwise, and a generic line for an empty note. */
  function PopupBody(note: Note): (b: string)
    ensures b != [] && |b| <= PreviewLength + 3
    ensures |note.content| > PreviewLength ==>
      |b| == PreviewLength + 3 && b[..PreviewLength] == note.content[..PreviewLength] && b[PreviewLength..] == "..."
    ensures 0 < |note.content| <= PreviewLength ==> b == note.content
    ensures note.content == "" ==> b == DefaultBody
  {
    if |note.content| > PreviewLength then Truncate(note.content, PreviewLength)
    else Or(note.content, DefaultBody)
  }
}
