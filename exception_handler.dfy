/**
 * The controller advice of the Spring service: every exception a request
 * raises becomes an `Error` body with a status code. Status exceptions keep
 * their status; unreadable JSON, failed bean validation and illegal
 * arguments are 400; any other exception is 404 when its message, lowered,
 * contains "not found", and 500 otherwise.
 */
module ExceptionHandler {
  import opened Wrappers
  import opened JavaErrors
  import MenuServices
  import MenuItems

  const BadRequest: int := 400
  const NotFound: int := 404
  const InternalServerError: int := 500

  /** The lower-case form of an ASCII upper-case letter; any other character is kept. */
  function LowerChar(c: char): char {
    if 'A' <= c <= 'Z' then (c as int - 'A' as int + 'a' as int) as char else c
  }

  /** `toLowerCase()`, on ASCII letters. */
  function ToLower(s: string): (r: string)
    ensures |r| == |s|
    ensures forall i :: 0 <= i < |s| ==> r[i] == LowerChar(s[i])
  {
    if s == [] then [] else [LowerChar(s[0])] + ToLower(s[1..])
  }

  /** `sub` occurs in `s` starting at position `i`. */
  predicate OccursAt(sub: string, s: string, i: nat) {
    i + |sub| <= |s| && s[i..i + |sub|] == sub
  }

  /** `sub` occurs in `s` at some position. */
  ghost predicate Occurs(sub: string, s: string) {
    exists i: nat :: OccursAt(sub, s, i)
  }

  /** The first position at or after `from` where `sub` occurs, as `indexOf` searches. */
  function IndexOf(s: string, sub: string, from: nat): Option<nat>
    decreases |s| - from
  {
    if from + |sub| > |s| then None
    else if s[from..from + |sub|] == sub then Some(from)
    else IndexOf(s, sub, from + 1)
  }

  lemma {:induction false} IndexOfFinds(s: string, sub: string, from: nat)
    ensures IndexOf(s, sub, from).Some? ==> OccursAt(sub, s, IndexOf(s, sub, from).value)
    ensures IndexOf(s, sub, from).None? ==> forall i: nat :: from <= i ==> !OccursAt(sub, s, i)
    decreases |s| - from
  {
    if from + |sub| <= |s| && s[from..from + |sub|] != sub {
      IndexOfFinds(s, sub, from + 1);
    }
  }

  /** `s.contains(sub)`. */
  function Contains(s: string, sub: string): (r: bool)
    ensures r <==> Occurs(sub, s)
  {
    IndexOfFinds(s, sub, 0);
    IndexOf(s, sub, 0).Some?
  }

  const NotFoundPhrase: string := "not found"

  function UriPrefix(uri: string): string {
    "[" + uri + "] "
  }

  function HandleResponseStatus(status: int, reason: JavaString, uri: string): ErrorBody {
    ErrorBody(status, UriPrefix(uri) + Concatenated(reason))
  }

  function HandleMessageNotReadable(message: JavaString): ErrorBody {
    ErrorBody(BadRequest, "Invalid JSON format: " + Concatenated(message))
  }

  /** Only the first field error is reported; with none, `get(0)` throws and no body is produced. */
  function HandleValidation(fieldErrors: seq<FieldError>): Option<ErrorBody> {
    if fieldErrors == [] then None
    else
      var first := fieldErrors[0];
      Some(ErrorBody(BadRequest,
        "Validation failed for field '" + first.field + "': " + Concatenated(first.defaultMessage)))
  }

  function HandleIllegalArgument(message: JavaString, uri: string): ErrorBody {
    ErrorBody(BadRequest, UriPrefix(uri) + "Invalid request: " + Concatenated(message))
  }

  function HandleGeneric(message: JavaString, uri: string): (r: ErrorBody)
    ensures r.code == NotFound <==> message.Some? && Occurs(NotFoundPhrase, ToLower(message.value))
    ensures r.code != NotFound ==> r.code == InternalServerError
  {
    var status :=
      if message.Some? && Contains(ToLower(message.value), NotFoundPhrase) then NotFound
      else InternalServerError;
    ErrorBody(status, UriPrefix(uri) + Concatenated(message))
  }

  /** The handler Spring selects for the exception, applied to it. */
  function Handle(ex: JavaException, uri: string): Option<ErrorBody> {
    match ex
    case ResponseStatus(status, reason) => Some(HandleResponseStatus(status, reason, uri))
    case MessageNotReadable(message) => Some(HandleMessageNotReadable(message))
    case ArgumentNotValid(fieldErrors) => HandleValidation(fieldErrors)
    case IllegalArgument(message) => Some(HandleIllegalArgument(message, uri))
    case Other(message) => Some(HandleGeneric(message, uri))
  }

  /**
   * The status of each answer: a status exception keeps its own, the three
   * client errors are 400, and any other exception is 404 exactly when its
   * lowered message contains "not found", else 500.
   */
  lemma HandleStatus(ex: JavaException, uri: string)
    ensures ex.ResponseStatus? ==> Handle(ex, uri).Some? && Handle(ex, uri).value.code == ex.status
    ensures ex.MessageNotReadable? || ex.IllegalArgument? ==> Handle(ex, uri).Some? && Handle(ex, uri).value.code == BadRequest
    ensures ex.ArgumentNotValid? ==>
              (Handle(ex, uri).Some? <==> ex.fieldErrors != []) &&
              (Handle(ex, uri).Some? ==> Handle(ex, uri).value.code == BadRequest)
    ensures ex.Other? ==>
              && Handle(ex, uri).Some?
              && (Handle(ex, uri).value.code == NotFound <==>
                    ex.message.Some? && Occurs(NotFoundPhrase, ToLower(ex.message.value)))
              && (Handle(ex, uri).value.code == NotFound || Handle(ex, uri).value.code == InternalServerError)
  {
  }

  /** The messages that name the request carry its URI in brackets first. */
  lemma MessagesNameTheUri(ex: JavaException, uri: string)
    requires ex.ResponseStatus? || ex.IllegalArgument? || ex.Other?
    ensures Handle(ex, uri).Some?
    ensures var m := Handle(ex, uri).value.message;
            |m| >= |uri| + 3 && m[..|uri| + 3] == "[" + uri + "] "
  {
    var m := Handle(ex, uri).value.message;
    assert m == UriPrefix(uri) + m[|uri| + 3..];
  }

  /** Field errors after the first change nothing in the answer. */
  lemma OnlyFirstFieldErrorReported(first: FieldError, rest: seq<FieldError>, uri: string)
    ensures Handle(ArgumentNotValid([first] + rest), uri) == Handle(ArgumentNotValid([first]), uri)
  {
  }

  /** Letter case does not matter: messages that lower to the same text get the same status. */
  lemma GenericStatusIgnoresCase(message: string, other: string, uri: string)
    requires ToLower(message) == ToLower(other)
    ensures Handle(Other(Some(message)), uri).value.code == Handle(Other(Some(other)), uri).value.code
  {
  }

  /**
   * What the menu service's lookup failures become: a null or non-positive
   * id is a 400 that names the request, an id no item carries a 404.
   */
  lemma ServiceLookupFailures(ids: seq<int>, menuId: Option<int>, uri: string)
    requires MenuServices.Lookup(ids, menuId).Failure?
    ensures var answer := Handle(MenuServices.Lookup(ids, menuId).error, uri);
            && answer.Some?
            && (menuId.None? ==>
                  answer.value == ErrorBody(BadRequest, UriPrefix(uri) + "Invalid request: " + MenuServices.NullIdMessage))
            && (menuId.Some? && menuId.value <= 0 ==>
                  answer.value == ErrorBody(BadRequest, UriPrefix(uri) + "Invalid request: " + MenuServices.NonPositiveIdMessage))
            && (menuId.Some? && menuId.value > 0 ==>
                  answer.value == ErrorBody(NotFound, UriPrefix(uri) + MenuServices.NotFoundReason))
  {
    MenuServices.LookupOutcome(ids, menuId);
  }

  /**
   * A menu item whose only violation is its missing name is answered with a
   * 400 naming that field, whatever order the validator reports violations in.
   */
  lemma NamelessMenuItemAnswer(d: MenuItems.MenuItemData, uri: string)
    requires MenuItems.Violations(d) == [MenuItems.Violation("name", MenuItems.NotNull)]
    ensures Handle(ArgumentNotValid(MenuItems.FieldErrors(d)), uri) ==
              Some(ErrorBody(BadRequest, "Validation failed for field 'name': must not be null"))
  {
    var first := MenuItems.FieldErrors(d)[0];
    assert first == FieldError("name", Some("must not be null"));
    assert Concatenated(first.defaultMessage) == "must not be null";
    assert "Validation failed for field '" + "name" + "': " + "must not be null"
        == "Validation failed for field 'name': must not be null";
  }
}
