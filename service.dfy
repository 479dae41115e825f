/**
 * `TodoService` as the code runs it: each operation loads the entity from the
 * repository, changes it through its setters and saves it back. Every method
 * leaves the repository exactly as the matching `Lifecycle` rule says and
 * returns the same outcome.
 */
module Service {
  import opened Wrappers
  import opened Dates
  import opened Entity
  import opened Dto
  import opened Mapper
  import opened Store
  import Lifecycle

  class TodoService {
    const repository: TodoRepository

    ghost predicate Valid()
      reads this, repository
    {
      repository.Valid()
    }

    constructor (repository: TodoRepository)
      requires repository.Valid()
      ensures this.repository == repository && Valid()
    {
      this.repository := repository;
    }

    method SaveTodo(draft: TodoSaveDto, today: LocalDate) returns (r: Lifecycle.Outcome<TodoRecord>)
      requires Valid()
      modifies repository
      ensures Valid()
      ensures (repository.db, r) == Lifecycle.SaveTodo(old(repository.db), draft, today)
    {
      if draft.deadline.Some? && IsBefore(draft.deadline.value, today) {
        return Lifecycle.PastDeadline;
      }
      var todo := new Todo(Lifecycle.NewRecord(draft));
      var saved := repository.Save(todo);
      return Lifecycle.Ok(saved);
    }

    /** Reads the store and changes nothing. */
    method GetFrontedTodoDtoList() returns (r: seq<TodoFrontendDto>)
      requires Valid()
      ensures |r| == |repository.db.ids| == |repository.db.rows|
      ensures forall i :: 0 <= i < |r| ==> r[i] == EntityToFrontEndDto(repository.db.rows[repository.db.ids[i]])
      ensures r == Lifecycle.GetFrontedTodoDtoList(repository.db)
    {
      var todoList := repository.FindAll();
      ScanLengthIsCount(repository.db);
      r := MapAll(todoList);
    }

    method UpdateTodoName(todoId: int, newName: string) returns (r: Lifecycle.Outcome<TodoRecord>)
      requires Valid()
      modifies repository
      ensures Valid()
      ensures (repository.db, r) == Lifecycle.UpdateTodoName(old(repository.db), todoId, newName)
    {
      var todo := repository.FindById(todoId);
      if todo == null {
        return Lifecycle.NotFound;
      }
      todo.SetName(Some(newName));
      var saved := repository.Save(todo);
      return Lifecycle.Ok(saved);
    }

    method ChangeTodoIsDoneStatus(todoId: int) returns (r: Lifecycle.Outcome<TodoRecord>)
      requires Valid()
      modifies repository
      ensures Valid()
      ensures (repository.db, r) == Lifecycle.ChangeTodoIsDoneStatus(old(repository.db), todoId)
    {
      var todo := repository.FindById(todoId);
      if todo == null {
        return Lifecycle.NotFound;
      }
      todo.ChangeIsDoneStatus();
      var saved := repository.Save(todo);
      return Lifecycle.Ok(saved);
    }

    method UpdateTodoDeadline(todoId: int, newLocalDate: Option<LocalDate>, today: LocalDate) returns (r: Lifecycle.Outcome<TodoRecord>)
      requires Valid()
      modifies repository
      ensures Valid()
      ensures (repository.db, r) == Lifecycle.UpdateTodoDeadline(old(repository.db), today, todoId, newLocalDate)
    {
      if newLocalDate.Some? && IsBefore(newLocalDate.value, today) {
        return Lifecycle.PastDeadline;
      }
      var todo := repository.FindById(todoId);
      if todo == null {
        return Lifecycle.NotFound;
      }
      todo.SetDeadline(newLocalDate);
      var saved := repository.Save(todo);
      return Lifecycle.Ok(saved);
    }

    method UpdateTodoPriority(todoId: int, newPriority: Option<Priority>) returns (r: Lifecycle.Outcome<TodoRecord>)
      requires Valid()
      modifies repository
      ensures Valid()
      ensures (repository.db, r) == Lifecycle.UpdateTodoPriority(old(repository.db), todoId, newPriority)
    {
      var todo := repository.FindById(todoId);
      if todo == null {
        return Lifecycle.NotFound;
      }
      todo.SetPriority(newPriority);
      var saved := repository.Save(todo);
      return Lifecycle.Ok(saved);
    }

    method DeleteTodo(todoId: int) returns (r: Lifecycle.Outcome<()>)
      requires Valid()
      modifies repository
      ensures Valid()
      ensures (repository.db, r) == Lifecycle.DeleteTodo(old(repository.db), todoId)
    {
      var todo := repository.FindById(todoId);
      if todo == null {
        return Lifecycle.NotFound;
      }
      repository.Delete(todo);
      return Lifecycle.Ok(());
    }
  }
}
