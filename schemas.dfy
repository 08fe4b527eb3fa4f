/** The optional value: a dict lookup that may miss, a field that may be absent. */
module Wrappers {

  datatype Option<+T> = None | Some(value: T) {

    /** The value, or `default` when there is none: `dict.get(key, default)`. */
    function GetOr(default: T): (r: T)
      ensures Some? ==> r == value
      ensures None? ==> r == default
    {
      match this
      case Some(v) => v
      case None => default
    }
  }
}

/**
 * The records the store keeps and hands back. They stand for the pydantic
 * models of the `schemas` module as plain values: no validation is modelled.
 */
module Schemas {
  import opened Wrappers

  /** Task status; on the wire the three literals "Todo", "In-Progress", "Done". */
  datatype Status = Todo | InProgress | Done

  /** Task priority; on the wire the three literals "Low", "Med", "High". */
  datatype Priority = Low | Med | High

  /** `ProjectRead`: a stored project. */
  datatype Project = Project(id: int, name: string)

  /** `TaskRead`: a stored task. */
  datatype Task = Task(
    id: int,
    title: string,
    description: Option<string>,
    status: Status,
    priority: Priority,
    projectId: int)

  /** `TaskCreate`: the fields a caller supplies for a new task. */
  datatype TaskCreate = TaskCreate(
    title: string,
    description: Option<string>,
    status: Status,
    priority: Priority)

  /**
   * `TaskUpdate` after `model_dump(exclude_unset=True)`: `None` is a field the
   * caller did not set. A description that is set may be set to null, hence
   * `Some(None)` clears it.
   */
  datatype TaskUpdate = TaskUpdate(
    title: Option<string>,
    description: Option<Option<string>>,
    status: Option<Status>,
    priority: Option<Priority>)
}
