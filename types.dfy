/** The record shapes the widget stores and passes around (the `Note` and
    `Task` interfaces), and the two shapes of the browser's Notification API
    the alerts use. Timestamps the core computes with are integer
    milliseconds passed in by the caller; here `createdAt` and
    `reminderDateTime` stay the strings they are on the wire. */
module Types {
  import opened Wrappers

  datatype Note = Note(
    id: string,
    title: string,
    content: string,
    reminderEnabled: bool,
    reminderDateTime: string,
    createdAt: string)

  /** What the add-note form hands to its parent: a note without `id` and `createdAt`. */
  datatype NoteDraft = NoteDraft(
    title: string,
    content: string,
    reminderEnabled: bool,
    reminderDateTime: string)

  datatype Task = Task(id: int, text: string, completed: bool)

  /** `Notification.permission`. */
  datatype Permission = Granted | Default | Denied

  /** A user-visible alert: an OS-level notification (`new Notification(title,
      { body, tag })`) or a blocking `alert(message)`. */
  datatype Alert =
    | SystemNotification(title: string, body: string, tag: Option<string>)
    | BlockingAlert(message: string)
}
