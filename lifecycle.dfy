/**
 * The rules of the todo lifecycle service, one function per operation, each
 * from the store before the call to the store after it and the outcome. The
 * current date is a parameter. `Service.TodoService` carries these rules out
 * step by step on the entity and repository objects.
 */
module Lifecycle {
  import opened Wrappers
  import opened Dates
  import opened Entity
  import opened Dto
  import opened Mapper
  import opened Store
  import opened Errors

  /** What a service call ends in: its result, or one of the two exceptions the service throws. */
  datatype Outcome<+T> = Ok(value: T) | PastDeadline | NotFound

  /** The exception a failed outcome stands for. */
  function Raised<T>(o: Outcome<T>): (e: Option<Exception>)
    ensures e.None? <==> o.Ok?
    ensures o.PastDeadline? <==> e == Some(DeadlineCannotBeInPast)
    ensures o.NotFound? <==> e == Some(TodoNotFound)
  {
    match o
    case Ok(_) => None
    case PastDeadline => Some(DeadlineCannotBeInPast)
    case NotFound => Some(TodoNotFound)
  }

  /** The deadline rule: a deadline that is present and strictly before today is refused; today itself is not. */
  function InPast(deadline: Option<LocalDate>, today: LocalDate): (past: bool)
    ensures past <==> deadline.Some? && deadline.value != today && !IsBefore(today, deadline.value)
  {
    deadline.Some? && IsBefore(deadline.value, today)
  }

  /** The entity `saveTodo` builds from a draft, before it has an id. */
  function NewRecord(d: TodoSaveDto): (t: TodoRecord)
    ensures t.todoId.None?
    ensures t.name == d.name && t.isDone == d.isDone && t.deadline == d.deadline && t.priority == d.priority
  {
    TodoRecord(None, d.name, d.isDone, d.deadline, d.priority)
  }

  /** `db'` differs from `db` at most in the row stored under `id`: same ids, same scan order, same counter. */
  predicate OnlyRecordChanged(db: Db, db': Db, id: int) {
    && db'.rows.Keys == db.rows.Keys
    && db'.ids == db.ids
    && db'.nextId == db.nextId
    && forall k :: k in db.rows && k != id ==> db'.rows[k] == db.rows[k]
  }

  /**
   * `saveTodo`: a deadline before today fails with no write; otherwise exactly
   * one row is added, under a fresh id, holding the draft's name, done flag,
   * deadline and priority.
   */
  function SaveTodo(db: Db, draft: TodoSaveDto, today: LocalDate): (res: (Db, Outcome<TodoRecord>))
    ensures InPast(draft.deadline, today) ==> res == (db, PastDeadline)
    ensures !InPast(draft.deadline, today) ==>
      && res.1 == Ok(TodoRecord(Some(db.nextId), draft.name, draft.isDone, draft.deadline, draft.priority))
      && res.0.rows == db.rows[db.nextId := res.1.value]
      && res.0.ids == db.ids + [db.nextId]
    ensures !res.1.NotFound?
    ensures db.Valid() ==> res.0.Valid()
    ensures db.Valid() && res.1.Ok? ==> db.nextId !in db.rows && |res.0.rows| == |db.rows| + 1
  {
    if InPast(draft.deadline, today) then (db, PastDeadline)
    else
      var inserted := Insert(db, NewRecord(draft));
      (inserted.0, Ok(inserted.1))
  }

  /** `getFrontedTodoDtoList`: one projection per stored row, in scan order. */
  function GetFrontedTodoDtoList(db: Db): (r: seq<TodoFrontendDto>)
    requires db.Valid()
    ensures |r| == |db.rows| == |db.ids|
    ensures forall i :: 0 <= i < |r| ==> r[i] == EntityToFrontEndDto(db.rows[db.ids[i]])
  {
    ScanLengthIsCount(db);
    MapAll(All(db))
  }

  /** `updateTodoName`: a missing id fails with no write; otherwise only that row's name changes. */
  function UpdateTodoName(db: Db, id: int, newName: string): (res: (Db, Outcome<TodoRecord>))
    ensures id !in db.rows ==> res == (db, NotFound)
    ensures id in db.rows ==>
      && OnlyRecordChanged(db, res.0, id)
      && res.0.rows[id] == db.rows[id].(name := Some(newName))
      && res.1 == Ok(res.0.rows[id])
    ensures db.Valid() ==> res.0.Valid()
  {
    match FindById(db, id)
    case None => (db, NotFound)
    case Some(t) =>
      var saved := t.(name := Some(newName));
      (Update(db, id, saved), Ok(saved))
  }

  /** `changeTodoIsDoneStatus`: a missing id fails with no write; otherwise only that row's done flag flips. */
  function ChangeTodoIsDoneStatus(db: Db, id: int): (res: (Db, Outcome<TodoRecord>))
    ensures id !in db.rows ==> res == (db, NotFound)
    ensures id in db.rows ==>
      && OnlyRecordChanged(db, res.0, id)
      && res.0.rows[id] == Toggled(db.rows[id])
      && res.0.rows[id].isDone == !db.rows[id].isDone
      && res.1 == Ok(res.0.rows[id])
    ensures db.Valid() ==> res.0.Valid()
  {
    match FindById(db, id)
    case None => (db, NotFound)
    case Some(t) =>
      var saved := Toggled(t);
      (Update(db, id, saved), Ok(saved))
  }

  /**
   * `updateTodoDeadline`: the date is checked before the id is looked up, so a
   * past date fails with PastDeadline whether or not the id exists; a missing
   * id then fails with NotFound; otherwise only that row's deadline is set,
   * and an absent date clears it.
   */
  function UpdateTodoDeadline(db: Db, today: LocalDate, id: int, newDeadline: Option<LocalDate>): (res: (Db, Outcome<TodoRecord>))
    ensures InPast(newDeadline, today) ==> res == (db, PastDeadline)
    ensures !InPast(newDeadline, today) && id !in db.rows ==> res == (db, NotFound)
    ensures !InPast(newDeadline, today) && id in db.rows ==>
      && OnlyRecordChanged(db, res.0, id)
      && res.0.rows[id] == db.rows[id].(deadline := newDeadline)
      && res.1 == Ok(res.0.rows[id])
    ensures db.Valid() ==> res.0.Valid()
  {
    if InPast(newDeadline, today) then (db, PastDeadline)
    else
      match FindById(db, id)
      case None => (db, NotFound)
      case Some(t) =>
        var saved := t.(deadline := newDeadline);
        (Update(db, id, saved), Ok(saved))
  }

  /** `updateTodoPriority`: a missing id fails with no write; otherwise only that row's priority is set, and absent clears it. */
  function UpdateTodoPriority(db: Db, id: int, newPriority: Option<Priority>): (res: (Db, Outcome<TodoRecord>))
    ensures id !in db.rows ==> res == (db, NotFound)
    ensures id in db.rows ==>
      && OnlyRecordChanged(db, res.0, id)
      && res.0.rows[id] == db.rows[id].(priority := newPriority)
      && res.1 == Ok(res.0.rows[id])
    ensures db.Valid() ==> res.0.Valid()
  {
    match FindById(db, id)
    case None => (db, NotFound)
    case Some(t) =>
      var saved := t.(priority := newPriority);
      (Update(db, id, saved), Ok(saved))
  }

  /** `deleteTodo`: a missing id fails with no write; otherwise exactly that row goes and the count drops by one. */
  function DeleteTodo(db: Db, id: int): (res: (Db, Outcome<()>))
    ensures id !in db.rows ==> res == (db, NotFound)
    ensures id in db.rows ==>
      && res.1 == Ok(())
      && res.0.rows.Keys == db.rows.Keys - {id}
      && (forall k :: k in res.0.rows ==> res.0.rows[k] == db.rows[k])
      && |res.0.rows| == |db.rows| - 1
    ensures db.Valid() ==> res.0.Valid()
  {
    match FindById(db, id)
    case None => (db, NotFound)
    case Some(_) => (Remove(db, id), Ok(()))
  }

  /** Changing the status twice restores the store exactly, whether or not the id exists. */
  lemma ChangeStatusTwiceRestores(db: Db, id: int)
    ensures ChangeTodoIsDoneStatus(ChangeTodoIsDoneStatus(db, id).0, id).0 == db
  {
    if id in db.rows {
      var once := ChangeTodoIsDoneStatus(db, id).0;
      var twice := ChangeTodoIsDoneStatus(once, id).0;
      assert twice.rows == db.rows;
    }
  }

  /** Renaming, setting the deadline or setting the priority again to the same value changes nothing further. */
  lemma SettersAreIdempotent(db: Db, today: LocalDate, id: int, n: string, d: Option<LocalDate>, p: Option<Priority>)
    ensures var once := UpdateTodoName(db, id, n).0; UpdateTodoName(once, id, n).0 == once
    ensures var once := UpdateTodoDeadline(db, today, id, d).0; UpdateTodoDeadline(once, today, id, d).0 == once
    ensures var once := UpdateTodoPriority(db, id, p).0; UpdateTodoPriority(once, id, p).0 == once
  {
    if id in db.rows {
      var once := UpdateTodoName(db, id, n).0;
      assert UpdateTodoName(once, id, n).0.rows == once.rows;
      var once' := UpdateTodoDeadline(db, today, id, d).0;
      assert UpdateTodoDeadline(once', today, id, d).0.rows == once'.rows;
      var once'' := UpdateTodoPriority(db, id, p).0;
      assert UpdateTodoPriority(once'', id, p).0.rows == once''.rows;
    }
  }

  /** After a successful delete, deleting the same id again fails with NotFound and writes nothing. */
  lemma DeleteTwiceFails(db: Db, id: int)
    requires id in db.rows
    ensures var first := DeleteTodo(db, id);
      first.1 == Ok(()) && DeleteTodo(first.0, id) == (first.0, NotFound)
  {
  }

  /** A saved todo is found under its new id and is listed last, as its projection. */
  lemma SavedTodoIsListedLast(db: Db, draft: TodoSaveDto, today: LocalDate)
    requires db.Valid() && !InPast(draft.deadline, today)
    ensures var res := SaveTodo(db, draft, today);
      && FindById(res.0, db.nextId) == Some(res.1.value)
      && var listed := GetFrontedTodoDtoList(res.0);
         |listed| == |db.rows| + 1 && listed[|listed| - 1] == EntityToFrontEndDto(res.1.value)
  {
  }

  /**
   * The end-to-end run: on an empty store, saving "Example todo" with no
   * deadline lists exactly that one todo with "Not finished", "No deadline"
   * and "No priority"; deleting it empties the store, and deleting it again
   * fails with NotFound.
   */
  lemma CreateListDeleteRun(today: LocalDate)
    ensures var saved := SaveTodo(Empty, Draft(Some("Example todo"), None, None, None), today);
      && saved.1 == Ok(TodoRecord(Some(1), Some("Example todo"), false, None, None))
      && GetFrontedTodoDtoList(saved.0) == [TodoFrontendDto(Some(1), Some("Example todo"), "Not finished", "No deadline", "No priority")]
      && var deleted := DeleteTodo(saved.0, 1);
         && deleted.1 == Ok(()) && Count(deleted.0) == 0
         && DeleteTodo(deleted.0, 1).1 == NotFound
  {
    EmptyIsValid();
    var saved := SaveTodo(Empty, Draft(Some("Example todo"), None, None, None), today);
    assert saved.0.ids == [1];
  }

  /** A todo saved done with priority HIGH is listed as "Finished" and "HIGH". */
  lemma FinishedHighPriorityIsListed(today: LocalDate)
    ensures var saved := SaveTodo(Empty, Draft(Some("Todo 2"), Some(true), None, Some(HIGH)), today);
      GetFrontedTodoDtoList(saved.0) == [TodoFrontendDto(Some(1), Some("Todo 2"), "Finished", "No deadline", "HIGH")]
  {
    EmptyIsValid();
    var saved := SaveTodo(Empty, Draft(Some("Todo 2"), Some(true), None, Some(HIGH)), today);
    assert saved.0.ids == [1];
  }
}
