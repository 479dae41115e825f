/**
 * `RestController`, the JSON endpoints under `api/restController`. Each
 * handler is a function from the store before the request to the store after
 * it and the reply. The handlers do not catch the service's exceptions
 * (except the list handler); an escaping exception is answered by
 * `GlobalExceptionHandler`, modelled by `Errors.Handle`.
 */
module Rest {
  import opened Wrappers
  import opened Dates
  import opened Entity
  import opened Dto
  import opened Mapper
  import opened Store
  import opened Errors
  import Lifecycle
  import Mvc

  /** What a reply carries. */
  datatype Body =
    | Text(text: string)
    | Todos(todos: seq<TodoFrontendDto>)
    /** the per-field messages of a rejected request body, one per violated constraint */
    | FieldErrors(violated: set<Constraint>)
    | NoBody

  datatype Reply = Reply(status: int, body: Body)

  /** A text response from the exception handler, as a reply. */
  function Answer(r: Response): Reply {
    Reply(r.status, Text(r.body))
  }

  /** The success reply when the service returned, `GlobalExceptionHandler`'s reply when it threw. */
  function Respond(thrown: Option<Exception>, success: Reply): (r: Reply)
    ensures thrown.None? ==> r == success
    ensures thrown.Some? ==> r == Answer(Handle(thrown.value))
  {
    match thrown
    case None => success
    case Some(e) => Answer(Handle(e))
  }

  const DeadlineAdjustedPrefix := "Deadline adjusted to: "
  const PriorityAdjustedPrefix := "Priority adjusted to: "

  /** The reply text of `updateDeadline`; a set date is rendered so that it parses back to itself. */
  function DeadlineMessage(d: Option<LocalDate>): (m: string)
    ensures d.None? ==> m == "Deadline is cleared"
    ensures d.Some? ==>
      && |m| == |DeadlineAdjustedPrefix| + 10
      && m[..|DeadlineAdjustedPrefix|] == DeadlineAdjustedPrefix
      && Parse(m[|DeadlineAdjustedPrefix|..]) == d
  {
    match d
    case None => "Deadline is cleared"
    case Some(date) =>
      var m := DeadlineAdjustedPrefix + Format(date);
      assert m[|DeadlineAdjustedPrefix|..] == Format(date);
      ParseFormat(date);
      m
  }

  /** The reply text of `updatePriority`; a set priority is named so that `valueOf` gives it back. */
  function PriorityMessage(p: Option<Priority>): (m: string)
    ensures p.None? ==> m == "Priority is cleared"
    ensures p.Some? ==>
      && |m| > |PriorityAdjustedPrefix| && m[..|PriorityAdjustedPrefix|] == PriorityAdjustedPrefix
      && PriorityValueOf(m[|PriorityAdjustedPrefix|..]) == p
  {
    match p
    case None => "Priority is cleared"
    case Some(q) =>
      var m := PriorityAdjustedPrefix + PriorityName(q);
      assert m[|PriorityAdjustedPrefix|..] == PriorityName(q);
      m
  }

  /**
   * `createTodo` as the code stands. `@Valid` rejects a body that breaks a
   * name constraint before the handler runs, with
   * `MethodArgumentNotValidException`; the only advice that applies to it is
   * `GlobalExceptionHandler`'s handler for `Exception`, so the reply is 500
   * with the general prefix before Spring's rendering, `rejection`, of the
   * failure. A past deadline is 400 with the exception's message; otherwise
   * one todo is saved and the reply is 201 naming it.
   */
  function CreateTodo(db: Db, today: LocalDate, draft: TodoSaveDto, rejection: string): (res: (Db, Reply))
    ensures !IsValid(draft) ==> res == (db, Reply(InternalServerError, Text(UnexpectedPrefix + rejection)))
    ensures IsValid(draft) && Lifecycle.InPast(draft.deadline, today) ==>
      res == (db, Reply(BadRequest, Text("Deadline cannot be in past")))
    ensures IsValid(draft) && !Lifecycle.InPast(draft.deadline, today) ==>
      && draft.name.Some?
      && res == (Lifecycle.SaveTodo(db, draft, today).0, Reply(Created, Text("Todo: " + draft.name.value + " was saved")))
    ensures res.1.status == Created <==> IsValid(draft) && !Lifecycle.InPast(draft.deadline, today)
    ensures res.1.status != Created ==> res.0 == db
  {
    if !IsValid(draft) then (db, Answer(Handle(ArgumentNotValid(Violations(draft), rejection))))
    else
      var call := Lifecycle.SaveTodo(db, draft, today);
      (call.0, Respond(Lifecycle.Raised(call.1), Reply(Created, Text("Todo: " + draft.name.value + " was saved"))))
  }

  /**
   * `createTodo` as the repository's tests expect it: an invalid body is 400
   * with one field message per violated constraint and no write, and every
   * valid body is handled as the code does.
   */
  function CreateTodoWithFieldErrors(db: Db, today: LocalDate, draft: TodoSaveDto): (res: (Db, Reply))
    ensures !IsValid(draft) ==> res == (db, Reply(BadRequest, FieldErrors(Violations(draft))))
    ensures forall rejection :: IsValid(draft) ==> res == CreateTodo(db, today, draft, rejection)
    ensures res.1.status == BadRequest <==> !IsValid(draft) || Lifecycle.InPast(draft.deadline, today)
    ensures res.1.status != Created ==> res.0 == db
  {
    if !IsValid(draft) then (db, Reply(BadRequest, FieldErrors(Violations(draft))))
    else CreateTodo(db, today, draft, "")
  }

  /**
   * A blank name and a missing name, the two bodies the tests send: as
   * written, both are answered 500; the tests expect 400 with the field
   * message for `@NotBlank`.
   */
  lemma InvalidBodyIsServerError(db: Db, today: LocalDate, rejection: string)
    ensures var blank := Draft(Some(""), None, None, None);
      && CreateTodo(db, today, blank, rejection) == (db, Reply(InternalServerError, Text(UnexpectedPrefix + rejection)))
      && CreateTodoWithFieldErrors(db, today, blank) == (db, Reply(BadRequest, FieldErrors({NotBlank})))
    ensures var unnamed := Draft(None, None, None, Some(LOW));
      && CreateTodo(db, today, unnamed, rejection) == (db, Reply(InternalServerError, Text(UnexpectedPrefix + rejection)))
      && CreateTodoWithFieldErrors(db, today, unnamed) == (db, Reply(BadRequest, FieldErrors({NotBlank})))
  {
    var blank := Draft(Some(""), None, None, None);
    var unnamed := Draft(None, None, None, Some(LOW));
    assert Violations(blank) == {NotBlank};
    assert Violations(unnamed) == {NotBlank};
  }

  /** The try/catch of the list handler: 200 with the list, or 500 with no body. */
  function ListReply(listed: Result<seq<TodoFrontendDto>, Exception>): (r: Reply)
    ensures listed.Success? ==> r == Reply(OkStatus, Todos(listed.value))
    ensures listed.Failure? ==> r == Reply(InternalServerError, NoBody)
  {
    match listed
    case Success(todos) => Reply(OkStatus, Todos(todos))
    case Failure(_) => Reply(InternalServerError, NoBody)
  }

  /** `getFrontendTodoList`: 200 with one projection per stored todo, in scan order. */
  function GetFrontendTodoList(db: Db): (r: Reply)
    requires db.Valid()
    ensures r.status == OkStatus && r.body.Todos?
    ensures |r.body.todos| == |db.rows| == |db.ids|
    ensures forall i :: 0 <= i < |r.body.todos| ==> r.body.todos[i] == EntityToFrontEndDto(db.rows[db.ids[i]])
  {
    ListReply(Success(Lifecycle.GetFrontedTodoDtoList(db)))
  }

  /** `updateName`: no length check here; a missing id is 500, an existing one is renamed. */
  function UpdateName(db: Db, id: int, newName: string): (res: (Db, Reply))
    ensures id !in db.rows ==>
      res == (db, Reply(InternalServerError, Text(UnexpectedPrefix + "Todo not found")))
    ensures id in db.rows ==>
      res == (Lifecycle.UpdateTodoName(db, id, newName).0, Reply(OkStatus, Text("Todo renamed to: " + newName)))
  {
    var call := Lifecycle.UpdateTodoName(db, id, newName);
    (call.0, Respond(Lifecycle.Raised(call.1), Reply(OkStatus, Text("Todo renamed to: " + newName))))
  }

  /** `changeIsDoneStatus`: a missing id is 500, an existing one is toggled. */
  function ChangeIsDoneStatus(db: Db, id: int): (res: (Db, Reply))
    ensures id !in db.rows ==>
      res == (db, Reply(InternalServerError, Text(UnexpectedPrefix + "Todo not found")))
    ensures id in db.rows ==>
      res == (Lifecycle.ChangeTodoIsDoneStatus(db, id).0, Reply(OkStatus, Text("Status was changed")))
  {
    var call := Lifecycle.ChangeTodoIsDoneStatus(db, id);
    (call.0, Respond(Lifecycle.Raised(call.1), Reply(OkStatus, Text("Status was changed"))))
  }

  /**
   * `updateDeadline`, with the date already bound from the request: a past
   * date is 400 whatever the id, then a missing id is 500, otherwise the
   * deadline is set and the reply echoes it.
   */
  function UpdateDeadline(db: Db, today: LocalDate, id: int, newLocalDate: Option<LocalDate>): (res: (Db, Reply))
    ensures Lifecycle.InPast(newLocalDate, today) ==>
      res == (db, Reply(BadRequest, Text("Deadline cannot be in past")))
    ensures !Lifecycle.InPast(newLocalDate, today) && id !in db.rows ==>
      res == (db, Reply(InternalServerError, Text(UnexpectedPrefix + "Todo not found")))
    ensures !Lifecycle.InPast(newLocalDate, today) && id in db.rows ==>
      res == (Lifecycle.UpdateTodoDeadline(db, today, id, newLocalDate).0, Reply(OkStatus, Text(DeadlineMessage(newLocalDate))))
  {
    var call := Lifecycle.UpdateTodoDeadline(db, today, id, newLocalDate);
    (call.0, Respond(Lifecycle.Raised(call.1), Reply(OkStatus, Text(DeadlineMessage(newLocalDate)))))
  }

  /** `updatePriority`, with the priority already bound from the request: a missing id is 500, otherwise it is set and echoed. */
  function UpdatePriority(db: Db, id: int, priority: Option<Priority>): (res: (Db, Reply))
    ensures id !in db.rows ==>
      res == (db, Reply(InternalServerError, Text(UnexpectedPrefix + "Todo not found")))
    ensures id in db.rows ==>
      res == (Lifecycle.UpdateTodoPriority(db, id, priority).0, Reply(OkStatus, Text(PriorityMessage(priority))))
  {
    var call := Lifecycle.UpdateTodoPriority(db, id, priority);
    (call.0, Respond(Lifecycle.Raised(call.1), Reply(OkStatus, Text(PriorityMessage(priority)))))
  }

  /** `deleteTodo`: a missing id is 500, an existing one is removed. */
  function DeleteTodo(db: Db, id: int): (res: (Db, Reply))
    ensures id !in db.rows ==>
      res == (db, Reply(InternalServerError, Text(UnexpectedPrefix + "Todo not found")))
    ensures id in db.rows ==>
      res == (Lifecycle.DeleteTodo(db, id).0, Reply(OkStatus, Text("Todo was deleted")))
  {
    var call := Lifecycle.DeleteTodo(db, id);
    (call.0, Respond(Lifecycle.Raised(call.1), Reply(OkStatus, Text("Todo was deleted"))))
  }

  /**
   * Every update endpoint answers 200 exactly when the store changed as the
   * service rule says, and any other status leaves the store as it was.
   */
  lemma UpdatesSucceedIffFound(db: Db, today: LocalDate, id: int, n: string, d: Option<LocalDate>, p: Option<Priority>)
    ensures var r := UpdateName(db, id, n); (r.1.status == OkStatus <==> id in db.rows) && (r.1.status != OkStatus ==> r.0 == db)
    ensures var r := ChangeIsDoneStatus(db, id); (r.1.status == OkStatus <==> id in db.rows) && (r.1.status != OkStatus ==> r.0 == db)
    ensures var r := UpdateDeadline(db, today, id, d);
      (r.1.status == OkStatus <==> id in db.rows && !Lifecycle.InPast(d, today)) && (r.1.status != OkStatus ==> r.0 == db)
    ensures var r := UpdatePriority(db, id, p); (r.1.status == OkStatus <==> id in db.rows) && (r.1.status != OkStatus ==> r.0 == db)
    ensures var r := DeleteTodo(db, id); (r.1.status == OkStatus <==> id in db.rows) && (r.1.status != OkStatus ==> r.0 == db)
  {
  }

  /**
   * The page endpoints and the JSON endpoints make the same change to the
   * store: a date or priority sent as the text the list shows has the same
   * effect as the bound value.
   */
  lemma ControllersAgree(db: Db, today: LocalDate, id: int, d: LocalDate, p: Priority, n: string, parseDetail: string)
    requires |n| <= MaxNameLength
    ensures Mvc.UpdateDeadline(db, today, id, Some(Format(d)), parseDetail).0 == UpdateDeadline(db, today, id, Some(d)).0
    ensures Mvc.UpdatePriority(db, id, Some(PriorityName(p))).0 == UpdatePriority(db, id, Some(p)).0
    ensures Mvc.UpdateName(db, id, n).0 == UpdateName(db, id, n).0
    ensures Mvc.ChangeIsDoneStatus(db, id).0 == ChangeIsDoneStatus(db, id).0
    ensures Mvc.DeleteTodo(db, id).0 == DeleteTodo(db, id).0
  {
    ParseFormat(d);
  }
}
