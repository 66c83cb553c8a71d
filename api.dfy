/** The requests the pages send to the persistence service, as values, so
    that a page can keep a log of what it has sent. */
module Api {
  import opened Common

  /** The body of `POST /tasks` or of a task `PATCH`: absent fields are the
      ones the client sets to `undefined`, which serialisation omits. */
  datatype TaskPayload = TaskPayload(
    title: string,
    description: string,
    status: string,
    priority: string,
    dueDate: Option<string>,
    assignedTo: Option<string>,
    projectId: Option<string>)

  datatype Body =
    | Credentials(email: string, password: string)
    | Profile(name: string, email: string, password: string, orgName: string)
    | TaskFields(fields: TaskPayload)
    | StatusOnly(status: string)
    | ProjectFields(name: string, description: string)

  datatype Request =
    | Get(path: string, params: map<string, string>)
    | Post(path: string, body: Body)
    | Patch(path: string, body: Body)
    | Delete(path: string)

  function TaskPath(id: string): string {
    "/tasks/" + id
  }

  function ProjectPath(id: string): string {
    "/projects/" + id
  }
}
