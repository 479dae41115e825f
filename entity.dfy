/** The Todo entity, its Priority enumeration and the mutable object the service edits. */
module Entity {
  import opened Wrappers
  import opened Dates

  /** The enumeration `Priority`; `None` for a field of this type means no priority. */
  datatype Priority = LOW | MEDIUM | HIGH

  /** `name()` (and `toString()`) of a constant. */
  function PriorityName(p: Priority): (name: string)
    ensures name in {"LOW", "MEDIUM", "HIGH"}
  {
    match p
    case LOW => "LOW"
    case MEDIUM => "MEDIUM"
    case HIGH => "HIGH"
  }

  /** `Priority.valueOf(token)`: the constant whose name is exactly `token`, if any. */
  function PriorityValueOf(token: string): (r: Option<Priority>)
    ensures forall p :: r == Some(p) <==> PriorityName(p) == token
  {
    if token == "LOW" then Some(LOW)
    else if token == "MEDIUM" then Some(MEDIUM)
    else if token == "HIGH" then Some(HIGH)
    else None
  }

  /** One stored row: the value of a Todo's fields. `todoId` is `None` until the store assigns one. */
  datatype TodoRecord = TodoRecord(
    todoId: Option<int>,
    name: Option<string>,
    isDone: bool,
    deadline: Option<LocalDate>,
    priority: Option<Priority>)

  /** The record after `changeIsDoneStatus`. */
  function Toggled(t: TodoRecord): (u: TodoRecord)
    ensures u.isDone != t.isDone
    ensures u.(isDone := t.isDone) == t
  {
    t.(isDone := !t.isDone)
  }

  lemma ToggledTwice(t: TodoRecord)
    ensures Toggled(Toggled(t)) == t
  {
  }

  /** The entity object, whose fields Lombok's setters and `changeIsDoneStatus` update in place. */
  class Todo {
    var todoId: Option<int>
    var name: Option<string>
    var isDone: bool
    var deadline: Option<LocalDate>
    var priority: Option<Priority>

    /** The current field values. */
    function Record(): TodoRecord
      reads this
    {
      TodoRecord(todoId, name, isDone, deadline, priority)
    }

    /** The all-arguments constructor, which the builder also ends in. */
    constructor (r: TodoRecord)
      ensures Record() == r
    {
      todoId, name, isDone, deadline, priority := r.todoId, r.name, r.isDone, r.deadline, r.priority;
    }

    method SetTodoId(v: Option<int>)
      modifies this
      ensures Record() == old(Record()).(todoId := v)
    {
      todoId := v;
    }

    method SetName(v: Option<string>)
      modifies this
      ensures Record() == old(Record()).(name := v)
    {
      name := v;
    }

    /** Lombok's `setDone` for the boolean field `isDone`. */
    method SetDone(v: bool)
      modifies this
      ensures Record() == old(Record()).(isDone := v)
    {
      isDone := v;
    }

    method SetDeadline(v: Option<LocalDate>)
      modifies this
      ensures Record() == old(Record()).(deadline := v)
    {
      deadline := v;
    }

    method SetPriority(v: Option<Priority>)
      modifies this
      ensures Record() == old(Record()).(priority := v)
    {
      priority := v;
    }

    /** Negates `isDone` and touches no other field. */
    method ChangeIsDoneStatus()
      modifies this
      ensures isDone == !old(isDone)
      ensures Record() == Toggled(old(Record()))
    {
      isDone := !isDone;
    }
  }
}
