/**
 * The exceptions the Spring menu service throws or receives, as values, and
 * the `(code, message)` body its error handler answers with.
 */
module JavaErrors {
  import opened Wrappers

  /** A Java `String` reference: `None` is `null`. */
  type JavaString = Option<string>

  /** What string concatenation makes of a possibly-null string. */
  function Concatenated(s: JavaString): string {
    match s
    case None => "null"
    case Some(text) => text
  }

  /** One entry of a binding result: the field and its constraint's default message. */
  datatype FieldError = FieldError(field: string, defaultMessage: JavaString)

  /** The exception kinds the handler distinguishes; `Other` is every remaining exception. */
  datatype JavaException =
    | ResponseStatus(status: int, reason: JavaString)
    | MessageNotReadable(message: JavaString)
    | ArgumentNotValid(fieldErrors: seq<FieldError>)
    | IllegalArgument(message: JavaString)
    | Other(message: JavaString)

  /** The `Error` payload: a status code and a message. */
  datatype ErrorBody = ErrorBody(code: int, message: string)
}
