/** `TodoMapper`: the display projection of a stored record. */
module Mapper {
  import opened Wrappers
  import opened Dates
  import opened Entity
  import opened Dto

  const FinishedLabel := "Finished"
  const NotFinishedLabel := "Not finished"
  const NoDeadlineLabel := "No deadline"
  const NoPriorityLabel := "No priority"

  /**
   * `entityToFrontEndDto`. Id and name are copied; every label can be read
   * back: the status label tells done from not done, the deadline label is
   * "No deadline" exactly when there is none and otherwise parses back to the
   * date, and the priority label is "No priority" exactly when there is none
   * and otherwise names the constant.
   */
  function EntityToFrontEndDto(t: TodoRecord): (d: TodoFrontendDto)
    ensures d.todoId == t.todoId && d.name == t.name
    ensures d.isDone == FinishedLabel <==> t.isDone
    ensures d.isDone in {FinishedLabel, NotFinishedLabel}
    ensures d.deadline == NoDeadlineLabel <==> t.deadline.None?
    ensures t.deadline.Some? ==> IsDateShape(d.deadline) && Parse(d.deadline) == t.deadline
    ensures d.priority == NoPriorityLabel <==> t.priority.None?
    ensures t.priority.Some? ==> PriorityValueOf(d.priority) == t.priority
  {
    ParseFormat(t.deadline.GetOr(Epoch));
    TodoFrontendDto(
      t.todoId,
      t.name,
      if t.isDone then FinishedLabel else NotFinishedLabel,
      if t.deadline.None? then NoDeadlineLabel else Format(t.deadline.value),
      if t.priority.None? then NoPriorityLabel else PriorityName(t.priority.value))
  }

  /** The rendered deadline, when there is one, is exactly the `toString()` form. */
  lemma DeadlineLabelIsFormat(t: TodoRecord)
    requires t.deadline.Some?
    ensures EntityToFrontEndDto(t).deadline == Format(t.deadline.value)
  {
    FormatParse(EntityToFrontEndDto(t).deadline);
  }

  /** Two records with the same projection agree on every field. */
  lemma ProjectionIsInjective(t: TodoRecord, u: TodoRecord)
    requires EntityToFrontEndDto(t) == EntityToFrontEndDto(u)
    ensures t == u
  {
    var d := EntityToFrontEndDto(t);
    assert t.isDone == u.isDone;
    assert t.deadline == u.deadline;
    assert t.priority == u.priority;
  }

  /** The stream `map(todoMapper::entityToFrontEndDto)`: one projection per record, in order. */
  function MapAll(ts: seq<TodoRecord>): (ds: seq<TodoFrontendDto>)
    ensures |ds| == |ts|
    ensures forall i :: 0 <= i < |ts| ==> ds[i] == EntityToFrontEndDto(ts[i])
  {
    if ts == [] then [] else [EntityToFrontEndDto(ts[0])] + MapAll(ts[1..])
  }
}
