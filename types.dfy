/** Value types shared by the watchlist store and the search page. */
module Types {

  datatype Option<T> = None | Some(value: T)

  /** A catalog record. Its identity is `id`; the other fields are carried along unchanged. */
  datatype Movie = Movie(
    id: int,
    title: string,
    posterPath: Option<string>,
    releaseDate: string,
    overview: string)

  /** The two notification severities, `'success'` and `'error'`. */
  datatype NotificationType = SuccessType | ErrorType

  /** The single transient message shown to the user. */
  datatype Notification = Notification(message: string, kind: NotificationType)

  /** The `{ success, message }` object that adding a movie returns. */
  datatype AddOutcome = AddOutcome(success: bool, message: string)
}
