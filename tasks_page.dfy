/** The task board page (`TasksPage`): the fetched list, the three filters,
    the create form and the status-change and delete handlers. Each handler
    runs as one atomic sequence; the outcome of every awaited request is an
    input, and `log` records the requests in the order they are sent. */
module TasksView {
  import opened Common
  import opened Entities
  import opened Api
  import opened TaskBoard

  class TasksPage {
    var tasks: seq<Task>
    var projects: seq<Project>
    var members: seq<Member>
    var loading: bool
    var showModal: bool
    var filters: Filters
    var toast: Option<Toast>
    var form: TaskForm
    var submitting: bool
    var error: string
    ghost var log: seq<Request>

    /** The state of a freshly mounted page. */
    constructor ()
      ensures tasks == [] && projects == [] && members == []
      ensures loading && !showModal && !submitting
      ensures filters == NoFilters && form == BlankTaskForm
      ensures toast == None && error == "" && log == []
    {
      tasks, projects, members := [], [], [];
      loading, showModal, submitting := true, false, false;
      filters, form := NoFilters, BlankTaskForm;
      toast, error := None, "";
      log := [];
    }

    /** Whether the clear-filters control is shown. */
    function ClearShown(): (b: bool)
      reads this
      ensures b <==> filters != NoFilters
    {
      FiltersActive(filters)
    }

    /** `fetchTasks`: one `GET /tasks` whose query holds exactly the set
        filters; the list is replaced on success, the error set on failure
        (a success does not clear an earlier error), and loading ends. */
    method FetchTasks(res: Response<seq<Task>>)
      modifies this`tasks, this`error, this`loading, this`log
      ensures log == old(log) + [Get("/tasks", QueryParams(filters))]
      ensures tasks == (if res.Success? then res.data else old(tasks))
      ensures error == (if res.Success? then old(error) else "Failed to load tasks")
      ensures !loading
    {
      var params := map[];
      if filters.status != "" { params := params["status" := filters.status]; }
      if filters.priority != "" { params := params["priority" := filters.priority]; }
      if filters.project != "" { params := params["projectId" := filters.project]; }
      log := log + [Get("/tasks", params)];
      if res.Success? {
        tasks := res.data;
      } else {
        error := "Failed to load tasks";
      }
      loading := false;
    }

    /** The mount effects: the project and member lists (which have no error
        handling, so a failure leaves them as they were), then the task list. */
    method Mount(projectsRes: Response<seq<Project>>, membersRes: Response<seq<Member>>, tasksRes: Response<seq<Task>>)
      modifies this`projects, this`members, this`tasks, this`error, this`loading, this`log
      ensures log == old(log) + [Get("/projects", map[]), Get("/org/members", map[]), Get("/tasks", QueryParams(filters))]
      ensures projects == (if projectsRes.Success? then projectsRes.data else old(projects))
      ensures members == (if membersRes.Success? then membersRes.data else old(members))
      ensures tasks == (if tasksRes.Success? then tasksRes.data else old(tasks))
      ensures error == (if tasksRes.Success? then old(error) else "Failed to load tasks")
      ensures !loading
    {
      log := log + [Get("/projects", map[]), Get("/org/members", map[])];
      if projectsRes.Success? { projects := projectsRes.data; }
      if membersRes.Success? { members := membersRes.data; }
      FetchTasks(tasksRes);
    }

    /** A render cycle in which the filter selects hold `next`: the fetch
        effect re-runs exactly when one of its three dependencies changed. */
    method SetFilters(next: Filters, refetch: Response<seq<Task>>)
      modifies this`filters, this`tasks, this`error, this`loading, this`log
      ensures filters == next
      ensures next == old(filters) ==>
        log == old(log) && tasks == old(tasks) && error == old(error) && loading == old(loading)
      ensures next != old(filters) ==>
        && log == old(log) + [Get("/tasks", QueryParams(next))]
        && tasks == (if refetch.Success? then refetch.data else old(tasks))
        && error == (if refetch.Success? then old(error) else "Failed to load tasks")
        && !loading
    {
      var changed := next != filters;
      filters := next;
      if changed {
        FetchTasks(refetch);
      }
    }

    /** The clear control: all three filters become empty, and the list is
        refetched without a query when a filter had been set. */
    method ClearFilters(refetch: Response<seq<Task>>)
      modifies this`filters, this`tasks, this`error, this`loading, this`log
      ensures filters == NoFilters
      ensures !old(ClearShown()) ==>
        && log == old(log) && tasks == old(tasks)
        && error == old(error) && loading == old(loading)
      ensures old(ClearShown()) ==>
        && log == old(log) + [Get("/tasks", map[])]
        && tasks == (if refetch.Success? then refetch.data else old(tasks))
        && error == (if refetch.Success? then old(error) else "Failed to load tasks")
        && !loading
    {
      var changed := filters != NoFilters;
      filters := NoFilters;
      if changed {
        FetchTasks(refetch);
      }
    }

    /** `onChange` of a form input, and the modal's open and close controls. */
    method EditForm(f: TaskForm)
      modifies this`form
      ensures form == f
    {
      form := f;
    }

    method SetShowModal(open: bool)
      modifies this`showModal
      ensures showModal == open
    {
      showModal := open;
    }

    /** `handleCreate`. A blank title or a missing project sends nothing and
        changes nothing. Otherwise one `POST /tasks` with the normalised form;
        on success the form is reset, the modal closed and exactly one
        refetch follows; on failure the form stays and the server's message
        (or a fallback) is shown. Submitting is over in both cases. */
    method HandleCreate(post: Response<()>, refetch: Response<seq<Task>>)
      modifies this`form, this`showModal, this`toast, this`submitting
      modifies this`tasks, this`error, this`loading, this`log
      ensures !CanCreate(old(form)) ==>
        && log == old(log) && form == old(form) && showModal == old(showModal)
        && toast == old(toast) && submitting == old(submitting)
        && tasks == old(tasks) && error == old(error) && loading == old(loading)
      ensures CanCreate(old(form)) && post.Success? ==>
        && log == old(log) + [Post("/tasks", TaskFields(CreatePayload(old(form)))), Get("/tasks", QueryParams(filters))]
        && form == BlankTaskForm && !showModal && !submitting
        && toast == Some(Toast("Task created!", false))
        && tasks == (if refetch.Success? then refetch.data else old(tasks))
        && error == (if refetch.Success? then old(error) else "Failed to load tasks")
        && !loading
      ensures CanCreate(old(form)) && post.Failure? ==>
        && log == old(log) + [Post("/tasks", TaskFields(CreatePayload(old(form))))]
        && form == old(form) && showModal == old(showModal) && !submitting
        && toast == Some(Toast(MessageOr(post.message, "Failed to create task"), true))
        && tasks == old(tasks) && error == old(error) && loading == old(loading)
    {
      if !CanCreate(form) {
        return;
      }
      Submit(post, refetch);
    }

    /** The part of `handleCreate` after its guard: the `POST`, then the
        reset and refetch or the error toast. */
    method Submit(post: Response<()>, refetch: Response<seq<Task>>)
      modifies this`form, this`showModal, this`toast, this`submitting
      modifies this`tasks, this`error, this`loading, this`log
      ensures post.Success? ==>
        && log == old(log) + [Post("/tasks", TaskFields(CreatePayload(old(form)))), Get("/tasks", QueryParams(filters))]
        && form == BlankTaskForm && !showModal && !submitting
        && toast == Some(Toast("Task created!", false))
        && tasks == (if refetch.Success? then refetch.data else old(tasks))
        && error == (if refetch.Success? then old(error) else "Failed to load tasks")
        && !loading
      ensures post.Failure? ==>
        && log == old(log) + [Post("/tasks", TaskFields(CreatePayload(old(form))))]
        && form == old(form) && showModal == old(showModal) && !submitting
        && toast == Some(Toast(MessageOr(post.message, "Failed to create task"), true))
        && tasks == old(tasks) && error == old(error) && loading == old(loading)
    {
      submitting := true;
      log := log + [Post("/tasks", TaskFields(CreatePayload(form)))];
      if post.Success? {
        form := BlankTaskForm;
        showModal := false;
        toast := Some(Toast("Task created!", false));
        FetchTasks(refetch);
      } else {
        toast := Some(Toast(MessageOr(post.message, "Failed to create task"), true));
      }
      submitting := false;
    }

    /** `handleStatusChange`: one `PATCH` with the new status. Only after it
        succeeds is the list patched: same length and order, every task with
        that id gets the new status and a recomputed overdue flag, every
        other task is unchanged. A failed PATCH leaves the list alone. */
    method HandleStatusChange(taskId: Id, newStatus: string, patch: Response<()>, now: int)
      modifies this`tasks, this`toast, this`log
      ensures log == old(log) + [Patch(TaskPath(taskId), StatusOnly(newStatus))]
      ensures |tasks| == |old(tasks)|
      ensures forall i :: 0 <= i < |tasks| ==>
        tasks[i] == if patch.Success? && old(tasks)[i].id == taskId
                    then RestatusFlagged(old(tasks)[i], newStatus, now) else old(tasks)[i]
      ensures toast == if patch.Success? then Some(Toast("Status updated", false))
                       else Some(Toast("Failed to update", true))
    {
      log := log + [Patch(TaskPath(taskId), StatusOnly(newStatus))];
      if patch.Success? {
        tasks := ReplaceById(tasks, taskId, (t: Task) => RestatusFlagged(t, newStatus, now));
        toast := Some(Toast("Status updated", false));
      } else {
        toast := Some(Toast("Failed to update", true));
      }
    }

    /** `handleDelete`: nothing without confirmation; otherwise one `DELETE`,
        and only after it succeeds every task with that id is removed. */
    method HandleDelete(taskId: Id, confirmed: bool, del: Response<()>)
      modifies this`tasks, this`toast, this`log
      ensures !confirmed ==> log == old(log) && tasks == old(tasks) && toast == old(toast)
      ensures confirmed ==> log == old(log) + [Delete(TaskPath(taskId))]
      ensures tasks == if confirmed && del.Success? then WithoutTask(old(tasks), taskId) else old(tasks)
      ensures confirmed ==> toast == if del.Success? then Some(Toast("Task deleted", false))
                                     else Some(Toast("Failed to delete", true))
    {
      if !confirmed {
        return;
      }
      log := log + [Delete(TaskPath(taskId))];
      if del.Success? {
        tasks := WithoutTask(tasks, taskId);
        toast := Some(Toast("Task deleted", false));
      } else {
        toast := Some(Toast("Failed to delete", true));
      }
    }

    /** The board's columns, one per stage. */
    function Columns(): (g: map<string, seq<Task>>)
      reads this
      ensures g.Keys == set s | s in Stages
      ensures forall s :: s in Stages ==> g[s] == Filter(tasks, HasStatus(s))
    {
      Grouped(tasks)
    }
  }
}
