/** Small shared vocabulary: optional values, form results and the toast log. */
module Common {

  /** A JavaScript value that may be `null`. */
  datatype Option<+T> = None | Some(value: T)

  /** The outcome of a form submission: the submitted data, or the error message shown. */
  datatype Result<+T> = Ok(value: T) | Err(message: string)

  /** The three kinds of toast the pages raise (`toast.success`, `toast.error`, `toast.info`). */
  datatype NoticeKind = Success | Error | Info

  /** One toast, as handed to the notification sink. */
  datatype Notice = Notice(kind: NoticeKind, message: string)
}
