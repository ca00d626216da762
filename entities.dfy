/** The records the front end receives from the API, as its components
    declare them. */
module Entities {
  import opened Common

  /** A user as listed and edited; the optional `password` of the form's own
      declaration is never read back, so it is not kept. */
  datatype User = User(id: int, username: string, email: string)

  /** A task; `description` and `completed` may be absent. */
  datatype Task = Task(id: int, title: string, description: Option<string>, completed: Option<bool>, userId: int)

  function UserId(u: User): int { u.id }

  function TaskId(t: Task): int { t.id }
}
