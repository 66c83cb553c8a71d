/** The records the client receives from the server. Identifiers are opaque
    strings (the `_id` fields). */
module Entities {
  import opened Common

  type Id = string

  /** A due date as received (an ISO date-time string) together with the
      instant `new Date(text)` denotes, as an integer timestamp. A present
      due date stands for a truthy `dueDate` field; `null`, `undefined` and
      the empty string are all modelled as absent. */
  datatype DueDate = DueDate(text: string, time: int)

  /** A task. `status` stays a string because the board silently drops an
      unknown one; `assignee` is the `_id` of the populated `assignedTo`
      user; `isOverdue` is the flag the server computes for the task list. */
  datatype Task = Task(
    id: Id,
    title: string,
    description: Option<string>,
    status: string,
    priority: string,
    dueDate: Option<DueDate>,
    assignee: Option<Id>,
    isOverdue: bool)

  /** A member of the organization as listed by `GET /org/members`. */
  datatype Member = Member(id: Id, name: string, email: string, role: string)

  /** A project; the completion figures are computed by the server and only
      displayed. */
  datatype Project = Project(
    id: Id,
    name: string,
    description: Option<string>,
    completionPercentage: int,
    doneTasks: int,
    totalTasks: int)

  /** The body of a successful login, register or join response: the user's
      identity together with the bearer token. */
  datatype Identity = Identity(
    id: Id,
    name: string,
    email: string,
    role: string,
    orgName: string,
    token: string)
}
