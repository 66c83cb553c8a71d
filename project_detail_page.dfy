/** The project page (`ProjectDetailPage`): the project, its tasks and the
    members, loaded together; the add and edit forms; the status-change and
    delete handlers. `log` records the requests sent, `navigations` the
    redirects. */
module ProjectDetailView {
  import opened Common
  import opened Entities
  import opened Api
  import opened TaskBoard

  /** The three responses of the combined load. */
  datatype Load = Load(project: Response<Project>, tasks: Response<seq<Task>>, members: Response<seq<Member>>)

  /** The combined load succeeds only when all three requests do. */
  predicate AllLoaded(l: Load) {
    l.project.Success? && l.tasks.Success? && l.members.Success?
  }

  /** The three requests of the combined load, all issued together. */
  function LoadRequests(id: Id): seq<Request> {
    [Get(ProjectPath(id), map[]), Get("/tasks", map["projectId" := id]), Get("/org/members", map[])]
  }

  class ProjectDetailPage {
    const routeId: Id
    var project: Option<Project>
    var tasks: seq<Task>
    var members: seq<Member>
    var loading: bool
    var showAdd: bool
    var editTask: Option<Task>
    var toast: Option<Toast>
    var form: DetailForm
    ghost var log: seq<Request>
    ghost var navigations: seq<string>

    /** The page for the route parameter `id`, before its first load. */
    constructor (id: Id)
      ensures routeId == id && project == None && tasks == [] && members == []
      ensures loading && !showAdd && editTask == None && toast == None
      ensures form == BlankDetailForm && log == [] && navigations == []
    {
      routeId := id;
      project, tasks, members := None, [], [];
      loading, showAdd, editTask, toast := true, false, None, None;
      form := BlankDetailForm;
      log, navigations := [], [];
    }

    /** `fetchAll`: the three requests go out together; if all succeed the
        project, tasks and members are replaced, if any fails nothing is
        replaced and the page navigates to `/projects`. Loading ends either way. */
    method FetchAll(l: Load)
      modifies this`project, this`tasks, this`members, this`loading, this`log, this`navigations
      ensures log == old(log) + LoadRequests(routeId)
      ensures AllLoaded(l) ==>
        && project == Some(l.project.data) && tasks == l.tasks.data && members == l.members.data
        && navigations == old(navigations)
      ensures !AllLoaded(l) ==>
        && project == old(project) && tasks == old(tasks) && members == old(members)
        && navigations == old(navigations) + ["/projects"]
      ensures !loading
    {
      log := log + LoadRequests(routeId);
      if AllLoaded(l) {
        project := Some(l.project.data);
        tasks := l.tasks.data;
        members := l.members.data;
      } else {
        navigations := navigations + ["/projects"];
      }
      loading := false;
    }

    /** The "Back to Projects" button. */
    method Back()
      modifies this`navigations
      ensures navigations == old(navigations) + ["/projects"]
    {
      navigations := navigations + ["/projects"];
    }

    /** `onChange` of a form input. */
    method EditForm(f: DetailForm)
      modifies this`form
      ensures form == f
    {
      form := f;
    }

    /** The "+ Add Task" button. */
    method OpenAdd()
      modifies this`showAdd
      ensures showAdd
    {
      showAdd := true;
    }

    /** Cancel, the close button or a click on the overlay: both modals
        close and the form is reset. */
    method CloseModal()
      modifies this`showAdd, this`editTask, this`form
      ensures !showAdd && editTask == None && form == BlankDetailForm
    {
      showAdd, editTask := false, None;
      form := BlankDetailForm;
    }

    /** `openEdit`: the edit modal opens on the task, with the form filled
        from it. */
    method OpenEdit(t: Task)
      modifies this`editTask, this`form
      ensures editTask == Some(t) && form == FormOf(t)
    {
      editTask := Some(t);
      form := FormOf(t);
    }

    /** `handleAddTask`: one `POST /tasks` for the route's project, with empty
        assignee and due date sent as absent (there is no client-side guard).
        On success the modal closes, the form resets and a full reload
        follows; on failure the form stays and the message is shown. */
    method HandleAddTask(post: Response<()>, reload: Load)
      modifies this`showAdd, this`form, this`toast
      modifies this`project, this`tasks, this`members, this`loading, this`log, this`navigations
      ensures post.Success? ==>
        && log == old(log) + [Post("/tasks", TaskFields(AddPayload(old(form), routeId)))] + LoadRequests(routeId)
        && !showAdd && form == BlankDetailForm && toast == Some(Toast("Task added!", false))
        && (AllLoaded(reload) ==>
              && project == Some(reload.project.data) && tasks == reload.tasks.data
              && members == reload.members.data && navigations == old(navigations))
        && (!AllLoaded(reload) ==>
              && project == old(project) && tasks == old(tasks) && members == old(members)
              && navigations == old(navigations) + ["/projects"])
        && !loading
      ensures post.Failure? ==>
        && log == old(log) + [Post("/tasks", TaskFields(AddPayload(old(form), routeId)))]
        && showAdd == old(showAdd) && form == old(form)
        && toast == Some(Toast(MessageOr(post.message, "Failed"), true))
        && project == old(project) && tasks == old(tasks) && members == old(members)
        && loading == old(loading) && navigations == old(navigations)
    {
      log := log + [Post("/tasks", TaskFields(AddPayload(form, routeId)))];
      if post.Success? {
        showAdd := false;
        form := BlankDetailForm;
        toast := Some(Toast("Task added!", false));
        FetchAll(reload);
      } else {
        toast := Some(Toast(MessageOr(post.message, "Failed"), true));
      }
    }

    /** `handleEditTask`, offered only while a task is being edited: one
        `PATCH` of that task with the form's fields. On success the modal
        closes, the form resets and a full reload follows. */
    method HandleEditTask(patch: Response<()>, reload: Load)
      requires editTask.Some?
      modifies this`editTask, this`form, this`toast
      modifies this`project, this`tasks, this`members, this`loading, this`log, this`navigations
      ensures patch.Success? ==>
        && log == old(log) + [Patch(TaskPath(old(editTask).value.id), TaskFields(EditPayload(old(form))))] + LoadRequests(routeId)
        && editTask == None && form == BlankDetailForm && toast == Some(Toast("Task updated!", false))
        && (AllLoaded(reload) ==>
              && project == Some(reload.project.data) && tasks == reload.tasks.data
              && members == reload.members.data && navigations == old(navigations))
        && (!AllLoaded(reload) ==>
              && project == old(project) && tasks == old(tasks) && members == old(members)
              && navigations == old(navigations) + ["/projects"])
        && !loading
      ensures patch.Failure? ==>
        && log == old(log) + [Patch(TaskPath(old(editTask).value.id), TaskFields(EditPayload(old(form))))]
        && editTask == old(editTask) && form == old(form)
        && toast == Some(Toast("Failed to update", true))
        && project == old(project) && tasks == old(tasks) && members == old(members)
        && loading == old(loading) && navigations == old(navigations)
    {
      log := log + [Patch(TaskPath(editTask.value.id), TaskFields(EditPayload(form)))];
      if patch.Success? {
        editTask := None;
        form := BlankDetailForm;
        toast := Some(Toast("Task updated!", false));
        FetchAll(reload);
      } else {
        toast := Some(Toast("Failed to update", true));
      }
    }

    /** `handleStatusChange`: one `PATCH` with the new status; only after it
        resolves is the status of every task with that id replaced, every
        other field and task kept. A rejected PATCH (unhandled here) changes
        nothing. */
    method HandleStatusChange(taskId: Id, newStatus: string, patch: Response<()>)
      modifies this`tasks, this`toast, this`log
      ensures log == old(log) + [Patch(TaskPath(taskId), StatusOnly(newStatus))]
      ensures |tasks| == |old(tasks)|
      ensures forall i :: 0 <= i < |tasks| ==>
        tasks[i] == if patch.Success? && old(tasks)[i].id == taskId
                    then old(tasks)[i].(status := newStatus) else old(tasks)[i]
      ensures toast == if patch.Success? then Some(Toast("Status updated", false)) else old(toast)
    {
      log := log + [Patch(TaskPath(taskId), StatusOnly(newStatus))];
      if patch.Success? {
        tasks := ReplaceById(tasks, taskId, (t: Task) => t.(status := newStatus));
        toast := Some(Toast("Status updated", false));
      }
    }

    /** `handleDelete`: nothing without confirmation; otherwise one `DELETE`,
        and once it resolves exactly the tasks with that id are removed. */
    method HandleDelete(taskId: Id, confirmed: bool, del: Response<()>)
      modifies this`tasks, this`toast, this`log
      ensures log == if confirmed then old(log) + [Delete(TaskPath(taskId))] else old(log)
      ensures tasks == if confirmed && del.Success? then WithoutTask(old(tasks), taskId) else old(tasks)
      ensures toast == if confirmed && del.Success? then Some(Toast("Deleted", false)) else old(toast)
    {
      if !confirmed {
        return;
      }
      log := log + [Delete(TaskPath(taskId))];
      if del.Success? {
        tasks := WithoutTask(tasks, taskId);
        toast := Some(Toast("Deleted", false));
      }
    }

    /** The board as rendered at time `now`: per stage, that stage's tasks in
        list order, each flagged overdue exactly when the predicate holds. */
    function Board(now: int): (b: map<string, seq<Card>>)
      reads this
      ensures b.Keys == set s | s in Stages
      ensures forall s :: s in b ==> b[s] == CardsOf(Filter(tasks, HasStatus(s)), now)
    {
      map s | s in Stages :: CardsOf(Filter(tasks, HasStatus(s)), now)
    }
  }

  /** After a successful status change to Done, a task is no longer shown as
      overdue, whatever its due date. */
  lemma DoneCardNotOverdue(t: Task, now: int)
    ensures CardsOf([t.(status := "Done")], now)[0].overdue == false
  {
  }

  /** After a status change, a task with that id sits in the column of the
      new status and in no other column. */
  lemma StatusChangeMovesTask(ts: seq<Task>, id: Id, s: string, s2: string, t: Task)
    requires t in ReplaceById(ts, id, (x: Task) => x.(status := s)) && t.id == id
    ensures t in Filter(ReplaceById(ts, id, (x: Task) => x.(status := s)), HasStatus(s))
    ensures s2 != s ==> t !in Filter(ReplaceById(ts, id, (x: Task) => x.(status := s)), HasStatus(s2))
  {
    var r := ReplaceById(ts, id, (x: Task) => x.(status := s));
    var i :| 0 <= i < |r| && r[i] == t;
    assert ts[i].id == id;
    FilterFacts(r, HasStatus(s));
    FilterFacts(r, HasStatus(s2));
  }
}
