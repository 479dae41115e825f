/**
 * `MvcController`, the page-rendering endpoints. Each handler is a function
 * from the store before the request to the store after it and the view it
 * renders, together with the model attributes it sets. The service calls are
 * the `Lifecycle` rules; the current date is a parameter.
 */
module Mvc {
  import opened Wrappers
  import opened Dates
  import opened Entity
  import opened Dto
  import opened Mapper
  import opened Store
  import opened Errors
  import opened Lifecycle

  /**
   * What a handler renders: a redirect to the list, the "index" view (with
   * the `todos` attribute when it was set, and the `todoSaveDto` form), or
   * the "error-page" view with its `errormessage` attribute.
   */
  datatype View =
    | Redirect
    | Index(todos: Option<seq<TodoFrontendDto>>, form: TodoSaveDto)
    | ErrorPage(errorMessage: string)

  const CreatePrefix := "Failed to create todo: "
  const ListPrefix := "Failed to get todos: "
  const UpdateNamePrefix := "Failed to update todo: "
  const StatusPrefix := "Failed to change todo status: "
  const DeadlinePrefix := "Failed to update todo deadline: "
  const PriorityPrefix := "Failed to update priority: "
  const DeletePrefix := "Failed to delete todo: "
  const NameTooLongMessage := "Failed to update todo: Name cannot exceed 100 characters."

  /** The try/catch every mutating handler ends in: redirect on success, the error page with the action's prefix otherwise. */
  function AfterCall(prefix: string, thrown: Option<Exception>): (v: View)
    ensures v == Redirect <==> thrown.None?
    ensures thrown.Some? ==> v == ErrorPage(prefix + Message(thrown.value))
  {
    match thrown
    case None => Redirect
    case Some(e) => ErrorPage(prefix + Message(e))
  }

  /**
   * The deadline form field: absent or empty means no deadline; any other text
   * must parse as a date, and the date it yields is the one whose rendering is
   * exactly that text. `parseDetail` is the tail java.time appends to the
   * message of a failed parse, which this model takes as given.
   */
  function DecodeDeadline(raw: Option<string>, parseDetail: string): (r: Result<Option<LocalDate>, Exception>)
    ensures raw.None? || raw == Some("") ==> r == Success(None)
    ensures raw.Some? && raw.value != "" ==> (r.Success? <==> Parse(raw.value).Some?)
    ensures r.Success? && r.value.Some? ==> raw == Some(Format(r.value.value))
    ensures r.Failure? ==> raw.Some? && r.error == DateTimeParse(raw.value, parseDetail)
  {
    if raw.None? || raw.value == "" then Success(None)
    else
      match Parse(raw.value)
      case Some(d) => FormatParse(raw.value); Success(Some(d))
      case None => Failure(DateTimeParse(raw.value, parseDetail))
  }

  /**
   * The priority form field: absent, empty or the literal "null" mean no
   * priority; any other token must name a constant exactly.
   */
  function DecodePriority(raw: Option<string>): (r: Result<Option<Priority>, Exception>)
    ensures raw.None? || raw == Some("") || raw == Some("null") ==> r == Success(None)
    ensures r.Success? && r.value.Some? ==> raw == Some(PriorityName(r.value.value))
    ensures r.Failure? <==> raw.Some? && raw.value != "" && raw.value != "null" && PriorityValueOf(raw.value).None?
    ensures r.Failure? ==> raw.Some? && r.error == NoEnumConstant(raw.value)
  {
    if raw.None? || raw.value == "" || raw.value == "null" then Success(None)
    else
      match PriorityValueOf(raw.value)
      case Some(p) => Success(Some(p))
      case None => Failure(NoEnumConstant(raw.value))
  }

  /** `result.hasErrors()`: a binding error on some field, or a violated name constraint. */
  function HasErrors(draft: TodoSaveDto, bindingErrors: bool): (errors: bool)
    ensures errors <==>
      bindingErrors || draft.name.None? || IsBlank(draft.name.value) || |draft.name.value| > MaxNameLength
  {
    bindingErrors || !IsValid(draft)
  }

  /**
   * `createTodo`: with errors the form is shown again and the service is not
   * called; otherwise a past deadline ends on the error page and anything
   * else saves one todo and redirects.
   */
  function CreateTodo(db: Db, today: LocalDate, draft: TodoSaveDto, bindingErrors: bool): (res: (Db, View))
    ensures HasErrors(draft, bindingErrors) ==> res == (db, Index(None, draft))
    ensures !HasErrors(draft, bindingErrors) && InPast(draft.deadline, today) ==>
      res == (db, ErrorPage(CreatePrefix + "Deadline cannot be in past"))
    ensures !HasErrors(draft, bindingErrors) && !InPast(draft.deadline, today) ==>
      res == (SaveTodo(db, draft, today).0, Redirect)
    ensures db.Valid() && res.1 == Redirect ==> res.0.Valid() && |res.0.rows| == |db.rows| + 1
  {
    if HasErrors(draft, bindingErrors) then (db, Index(None, draft))
    else
      var call := SaveTodo(db, draft, today);
      (call.0, AfterCall(CreatePrefix, Raised(call.1)))
  }

  /** The try/catch of the list handler: the list and a fresh empty form, or the error page. */
  function ListPage(listed: Result<seq<TodoFrontendDto>, Exception>): (v: View)
    ensures listed.Success? ==> v == Index(Some(listed.value), EmptyDraft)
    ensures listed.Failure? ==> v == ErrorPage(ListPrefix + Message(listed.error))
  {
    match listed
    case Success(todos) => Index(Some(todos), EmptyDraft)
    case Failure(e) => ErrorPage(ListPrefix + Message(e))
  }

  /** `getFrontendTodoList`: "index" with one projection per stored todo and an empty form. */
  function GetFrontendTodoList(db: Db): (v: View)
    requires db.Valid()
    ensures v.Index? && v.form == EmptyDraft && v.todos.Some?
    ensures |v.todos.value| == |db.rows| == |db.ids|
    ensures forall i :: 0 <= i < |v.todos.value| ==> v.todos.value[i] == EntityToFrontEndDto(db.rows[db.ids[i]])
  {
    ListPage(Success(Lifecycle.GetFrontedTodoDtoList(db)))
  }

  /**
   * `updateName`: a name over 100 characters is refused before the service is
   * called; otherwise a missing id ends on the error page and an existing one
   * is renamed.
   */
  function UpdateName(db: Db, id: int, newName: string): (res: (Db, View))
    ensures |newName| > MaxNameLength ==>
      res == (db, ErrorPage(NameTooLongMessage))
    ensures |newName| <= MaxNameLength && id !in db.rows ==>
      res == (db, ErrorPage(UpdateNamePrefix + "Todo not found"))
    ensures |newName| <= MaxNameLength && id in db.rows ==>
      res == (UpdateTodoName(db, id, newName).0, Redirect)
    ensures res.1.ErrorPage? ==> res.0 == db
  {
    if |newName| > MaxNameLength then (db, ErrorPage(NameTooLongMessage))
    else
      var call := UpdateTodoName(db, id, newName);
      (call.0, AfterCall(UpdateNamePrefix, Raised(call.1)))
  }

  /** `changeIsDoneStatus`: a missing id ends on the error page, an existing one is toggled. */
  function ChangeIsDoneStatus(db: Db, id: int): (res: (Db, View))
    ensures id !in db.rows ==> res == (db, ErrorPage(StatusPrefix + "Todo not found"))
    ensures id in db.rows ==> res == (ChangeTodoIsDoneStatus(db, id).0, Redirect)
  {
    var call := ChangeTodoIsDoneStatus(db, id);
    (call.0, AfterCall(StatusPrefix, Raised(call.1)))
  }

  /**
   * `updateDeadline`: the field is decoded inside the try block, so a text that
   * is not a date ends on the error page too; then the service's rule applies,
   * date first, id second. A failed parse quotes the text, cut to 64
   * characters, followed by java.time's `parseDetail`.
   */
  function UpdateDeadline(db: Db, today: LocalDate, id: int, raw: Option<string>, parseDetail: string): (res: (Db, View))
    ensures DecodeDeadline(raw, parseDetail).Failure? ==>
      res == (db, ErrorPage(DeadlinePrefix + (ParseHead + Abbreviated(raw.value) + ParseTail + parseDetail)))
    ensures DecodeDeadline(raw, parseDetail).Success? ==>
      var d := DecodeDeadline(raw, parseDetail).value;
      && (InPast(d, today) ==> res == (db, ErrorPage(DeadlinePrefix + "Deadline cannot be in past")))
      && (!InPast(d, today) && id !in db.rows ==> res == (db, ErrorPage(DeadlinePrefix + "Todo not found")))
      && (!InPast(d, today) && id in db.rows ==> res == (UpdateTodoDeadline(db, today, id, d).0, Redirect))
    ensures res.1.ErrorPage? ==> res.0 == db
  {
    match DecodeDeadline(raw, parseDetail)
    case Failure(e) => (db, ErrorPage(DeadlinePrefix + Message(e)))
    case Success(d) =>
      var call := UpdateTodoDeadline(db, today, id, d);
      (call.0, AfterCall(DeadlinePrefix, Raised(call.1)))
  }

  /** `updatePriority`: an unknown token ends on the error page before the service is called. */
  function UpdatePriority(db: Db, id: int, raw: Option<string>): (res: (Db, View))
    ensures DecodePriority(raw).Failure? ==>
      res == (db, ErrorPage(PriorityPrefix + ("No enum constant org.example.todo_application.entity.Priority." + raw.value)))
    ensures DecodePriority(raw).Success? ==>
      var p := DecodePriority(raw).value;
      && (id !in db.rows ==> res == (db, ErrorPage(PriorityPrefix + "Todo not found")))
      && (id in db.rows ==> res == (UpdateTodoPriority(db, id, p).0, Redirect))
    ensures res.1.ErrorPage? ==> res.0 == db
  {
    match DecodePriority(raw)
    case Failure(e) => (db, ErrorPage(PriorityPrefix + Message(e)))
    case Success(p) =>
      var call := UpdateTodoPriority(db, id, p);
      (call.0, AfterCall(PriorityPrefix, Raised(call.1)))
  }

  /** `deleteTodo`: a missing id ends on the error page, an existing one is removed. */
  function DeleteTodo(db: Db, id: int): (res: (Db, View))
    ensures id !in db.rows ==> res == (db, ErrorPage(DeletePrefix + "Todo not found"))
    ensures id in db.rows ==> res == (Lifecycle.DeleteTodo(db, id).0, Redirect)
  {
    var call := Lifecycle.DeleteTodo(db, id);
    (call.0, AfterCall(DeletePrefix, Raised(call.1)))
  }

  /** A deadline the list shows, sent back through the deadline form field, decodes to the same date. */
  lemma ListedDeadlineDecodes(t: TodoRecord, parseDetail: string)
    requires t.deadline.Some?
    ensures DecodeDeadline(Some(EntityToFrontEndDto(t).deadline), parseDetail) == Success(t.deadline)
  {
  }

  /** A priority the list shows, sent back through the priority form field, decodes to the same priority; "No priority" is refused. */
  lemma ListedPriorityDecodes(t: TodoRecord)
    ensures t.priority.Some? ==> DecodePriority(Some(EntityToFrontEndDto(t).priority)) == Success(t.priority)
    ensures t.priority.None? ==> DecodePriority(Some(EntityToFrontEndDto(t).priority)).Failure?
  {
  }
}
