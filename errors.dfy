/**
 * The exceptions a request can end in, their messages, and
 * `GlobalExceptionHandler`, which turns an exception escaping a JSON endpoint
 * into a status and a body.
 */
module Errors {
  import opened Dto

  /** The failures the controllers can catch or let escape. */
  datatype Exception =
    /** `DeadlineCannotBeInPastException`, thrown by the service */
    | DeadlineCannotBeInPast
    /** the `RuntimeException` the service throws when no row has the id */
    | TodoNotFound
    /**
     * `DateTimeParseException` from `LocalDate.parse` of `text`; `detail` is
     * the tail java.time appends to the message (" at index 0", ": Invalid
     * date 'FEBRUARY 30'", ...), which this model does not compute
     */
    | DateTimeParse(text: string, detail: string)
    /** `IllegalArgumentException` from `Priority.valueOf` of `token` */
    | NoEnumConstant(token: string)
    /**
     * `MethodArgumentNotValidException` from `@Valid` on a request body that
     * breaks the `violated` constraints; `detail` is Spring's rendering of it
     */
    | ArgumentNotValid(violated: set<Constraint>, detail: string)
    /** any other failure, for instance from the store */
    | Unexpected(message: string)

  /** The quoted input of a parse message: texts over 64 characters are cut to 64 and marked with "...". */
  function Abbreviated(text: string): (a: string)
    ensures |text| <= 64 ==> a == text
    ensures |text| > 64 ==> |a| == 67 && a[..64] == text[..64] && a[64..] == "..."
  {
    if |text| > 64 then text[..64] + "..." else text
  }

  const ParseHead := "Text '"
  const ParseTail := "' could not be parsed"
  const EnumHead := "No enum constant org.example.todo_application.entity.Priority."

  /**
   * `getMessage()`. The two service exceptions carry fixed texts; a parse
   * failure quotes the (abbreviated) input and an enum failure ends in the
   * token, so each can be read back from the message.
   */
  function Message(e: Exception): (m: string)
    ensures e == DeadlineCannotBeInPast ==> m == "Deadline cannot be in past"
    ensures e == TodoNotFound ==> m == "Todo not found"
    ensures e.DateTimeParse? ==>
      var n := |ParseHead| + |Abbreviated(e.text)|;
      && |m| >= n + |ParseTail|
      && m[..|ParseHead|] == ParseHead
      && m[|ParseHead|..n] == Abbreviated(e.text)
      && m[n..n + |ParseTail|] == ParseTail
      && m[n + |ParseTail|..] == e.detail
    ensures e.NoEnumConstant? ==> |m| >= |EnumHead| && m[..|EnumHead|] == EnumHead && m[|EnumHead|..] == e.token
    ensures e.ArgumentNotValid? ==> m == e.detail
    ensures e.Unexpected? ==> m == e.message
  {
    match e
    case DeadlineCannotBeInPast => "Deadline cannot be in past"
    case TodoNotFound => "Todo not found"
    case DateTimeParse(text, detail) =>
      var m := ParseHead + Abbreviated(text) + ParseTail + detail;
      var n := |ParseHead| + |Abbreviated(text)|;
      assert m[..|ParseHead|] == ParseHead;
      assert m[|ParseHead|..n] == Abbreviated(text);
      assert m[n..n + |ParseTail|] == ParseTail;
      m
    case NoEnumConstant(token) =>
      assert (EnumHead + token)[|EnumHead|..] == token;
      EnumHead + token
    case ArgumentNotValid(_, detail) => detail
    case Unexpected(message) => message
  }

  /** An HTTP status and a text body. */
  datatype Response = Response(status: int, body: string)

  const OkStatus := 200
  const Created := 201
  const BadRequest := 400
  const InternalServerError := 500

  const UnexpectedPrefix := "An unexpected error occurred: "

  /** `handleDeadlineExceptionForRest`: the message, unchanged, with 400. */
  function HandleDeadlineExceptionForRest(e: Exception): (r: Response)
    requires e.DeadlineCannotBeInPast?
    ensures r == Response(BadRequest, "Deadline cannot be in past")
  {
    Response(BadRequest, Message(e))
  }

  /** `handleGeneralExceptionForRest`: 500 with the message behind a fixed prefix. */
  function HandleGeneralExceptionForRest(e: Exception): (r: Response)
    ensures r.status == InternalServerError
    ensures |r.body| >= |UnexpectedPrefix| && r.body[..|UnexpectedPrefix|] == UnexpectedPrefix
    ensures r.body[|UnexpectedPrefix|..] == Message(e)
  {
    Response(InternalServerError, UnexpectedPrefix + Message(e))
  }

  /**
   * Handler selection: the deadline exception goes to its own handler, which is
   * more specific than the one for `Exception`; every other exception goes to
   * the general one. So 400 is returned exactly for the deadline rule, and a
   * missing todo becomes a 500.
   */
  function Handle(e: Exception): (r: Response)
    ensures r.status == BadRequest <==> e == DeadlineCannotBeInPast
    ensures r.status == BadRequest || r.status == InternalServerError
    ensures e == DeadlineCannotBeInPast ==> r.body == "Deadline cannot be in past"
    ensures e == TodoNotFound ==> r == Response(InternalServerError, "An unexpected error occurred: Todo not found")
    ensures e != DeadlineCannotBeInPast ==> r == HandleGeneralExceptionForRest(e)
  {
    if e.DeadlineCannotBeInPast? then HandleDeadlineExceptionForRest(e)
    else HandleGeneralExceptionForRest(e)
  }
}
