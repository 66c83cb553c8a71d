/** The task-board logic shared by the task list and the project page: the
    stage buckets, the overdue predicate, the three-filter query, the
    by-id list updates, and the task forms with their request payloads. */
module TaskBoard {
  import opened Common
  import opened Entities
  import opened Api

  /** `STATUSES`, in board order. */
  const Stages: seq<string> := ["Backlog", "Todo", "In Progress", "Done"]

  function HasStatus(s: string): Task -> bool {
    (t: Task) => t.status == s
  }

  function HasStatusIn(ss: seq<string>): Task -> bool {
    (t: Task) => t.status in ss
  }

  function HasOtherId(id: Id): Task -> bool {
    (t: Task) => t.id != id
  }

  // ---------------------------------------------------------------- grouping

  /** `STATUSES.reduce((acc, s) => { acc[s] = tasks.filter(t => t.status === s); return acc; }, acc)`
      over the stages `ss`. */
  function GroupFold(ss: seq<string>, ts: seq<Task>, acc: map<string, seq<Task>>): (r: map<string, seq<Task>>)
    ensures forall s :: s in ss ==> s in r && r[s] == Filter(ts, HasStatus(s))
    ensures forall s :: s in acc && s !in ss ==> s in r && r[s] == acc[s]
    decreases |ss|
  {
    if ss == [] then acc
    else GroupFold(ss[1..], ts, acc[ss[0] := Filter(ts, HasStatus(ss[0]))])
  }

  /** Every stage of `ss` gets its bucket, every other entry of the
      accumulator is kept. */
  lemma {:induction false} GroupFoldFacts(ss: seq<string>, ts: seq<Task>, acc: map<string, seq<Task>>)
    ensures GroupFold(ss, ts, acc).Keys == acc.Keys + (set s | s in ss)
    ensures forall s :: s in ss ==> GroupFold(ss, ts, acc)[s] == Filter(ts, HasStatus(s))
    ensures forall s :: s in acc && s !in ss ==> GroupFold(ss, ts, acc)[s] == acc[s]
    decreases |ss|
  {
    if ss != [] {
      var next := acc[ss[0] := Filter(ts, HasStatus(ss[0]))];
      GroupFoldFacts(ss[1..], ts, next);
      assert forall s :: s in ss <==> s == ss[0] || s in ss[1..];
      assert next.Keys == acc.Keys + {ss[0]};
    }
  }

  /** `grouped`: one bucket per stage, holding that stage's tasks in list order. */
  function Grouped(ts: seq<Task>): (g: map<string, seq<Task>>)
    ensures g.Keys == set s | s in Stages
    ensures forall s :: s in Stages ==> g[s] == Filter(ts, HasStatus(s))
  {
    GroupFoldFacts(Stages, ts, map[]);
    GroupFold(Stages, ts, map[])
  }

  /** A bucket holds exactly the tasks of its stage, each as often as it
      occurs in the list, and a task of another status not at all. */
  lemma BucketContents(ts: seq<Task>, s: string, t: Task)
    requires s in Stages
    ensures multiset(Grouped(ts)[s])[t] == if t.status == s then multiset(ts)[t] else 0
    ensures t in Grouped(ts)[s] <==> t in ts && t.status == s
  {
    FilterFacts(ts, HasStatus(s));
  }

  /** A bucket keeps the list order: grouping a concatenation concatenates the buckets. */
  lemma BucketOrder(a: seq<Task>, b: seq<Task>, s: string)
    requires s in Stages
    ensures Grouped(a + b)[s] == Grouped(a)[s] + Grouped(b)[s]
  {
    FilterAppend(a, b, HasStatus(s));
  }

  /** How often a task occurs in the bucket of one status. */
  lemma StatusBucketCount(ts: seq<Task>, s: string, t: Task)
    ensures multiset(Filter(ts, HasStatus(s)))[t] == if t.status == s then multiset(ts)[t] else 0
  {
    FilterFacts(ts, HasStatus(s));
  }

  /** Four pairwise different statuses. */
  predicate FourDistinct(ss: seq<string>) {
    |ss| == 4 && ss[0] != ss[1] && ss[0] != ss[2] && ss[0] != ss[3]
    && ss[1] != ss[2] && ss[1] != ss[3] && ss[2] != ss[3]
  }

  /** How often a task occurs in the buckets of four distinct statuses. */
  lemma FourBucketsCount(ts: seq<Task>, t: Task, ss: seq<string>)
    requires FourDistinct(ss)
    ensures multiset(Filter(ts, HasStatus(ss[0])))[t] + multiset(Filter(ts, HasStatus(ss[1])))[t]
          + multiset(Filter(ts, HasStatus(ss[2])))[t] + multiset(Filter(ts, HasStatus(ss[3])))[t]
         == multiset(Filter(ts, HasStatusIn(ss)))[t]
  {
    StatusBucketCount(ts, ss[0], t);
    StatusBucketCount(ts, ss[1], t);
    StatusBucketCount(ts, ss[2], t);
    StatusBucketCount(ts, ss[3], t);
    FilterFacts(ts, HasStatusIn(ss));
    assert t.status in ss <==> t.status == ss[0] || t.status == ss[1] || t.status == ss[2] || t.status == ss[3];
  }

  /** The buckets of four distinct statuses together hold exactly the tasks
      with one of those statuses. */
  lemma FourBucketsPartition(ts: seq<Task>, ss: seq<string>)
    requires FourDistinct(ss)
    ensures multiset(Filter(ts, HasStatus(ss[0]))) + multiset(Filter(ts, HasStatus(ss[1])))
          + multiset(Filter(ts, HasStatus(ss[2]))) + multiset(Filter(ts, HasStatus(ss[3])))
         == multiset(Filter(ts, HasStatusIn(ss)))
  {
    var all := multiset(Filter(ts, HasStatus(ss[0]))) + multiset(Filter(ts, HasStatus(ss[1])))
             + multiset(Filter(ts, HasStatus(ss[2]))) + multiset(Filter(ts, HasStatus(ss[3])));
    var known := multiset(Filter(ts, HasStatusIn(ss)));
    forall t ensures all[t] == known[t] {
      FourBucketsCount(ts, t, ss);
    }
    assert all == known;
  }

  /** The four buckets together hold exactly the tasks whose status is one of
      the four stages, each as often as in the list; a task with any other
      status is dropped. */
  lemma GroupedPartition(ts: seq<Task>)
    ensures var g := Grouped(ts);
      multiset(g["Backlog"]) + multiset(g["Todo"]) + multiset(g["In Progress"]) + multiset(g["Done"])
      == multiset(Filter(ts, HasStatusIn(Stages)))
  {
    assert FourDistinct(Stages);
    FourBucketsPartition(ts, Stages);
  }

  /** Counting tasks: the four bucket sizes add up to the number of tasks
      with a known stage. */
  lemma GroupedSizes(ts: seq<Task>)
    ensures var g := Grouped(ts);
      |g["Backlog"]| + |g["Todo"]| + |g["In Progress"]| + |g["Done"]| == |Filter(ts, HasStatusIn(Stages))|
  {
    GroupedPartition(ts);
    var g := Grouped(ts);
    assert |multiset(g["Backlog"]) + multiset(g["Todo"]) + multiset(g["In Progress"]) + multiset(g["Done"])|
        == |g["Backlog"]| + |g["Todo"]| + |g["In Progress"]| + |g["Done"]|;
  }

  /** Two different buckets share no task. */
  lemma BucketsDisjoint(ts: seq<Task>, s1: string, s2: string, t: Task)
    requires s1 in Stages && s2 in Stages && s1 != s2
    ensures !(t in Grouped(ts)[s1] && t in Grouped(ts)[s2])
  {
    FilterFacts(ts, HasStatus(s1));
    FilterFacts(ts, HasStatus(s2));
  }

  // ----------------------------------------------------------------- overdue

  /** `task.dueDate && new Date(task.dueDate) < new Date() && task.status !== 'Done'` */
  function IsOverdue(t: Task, now: int): (b: bool)
    ensures b ==> t.status != "Done"
    ensures t.dueDate.None? ==> !b
    ensures t.dueDate.Some? && t.status != "Done" ==> (b <==> t.dueDate.value.time < now)
  {
    t.dueDate.Some? && t.dueDate.value.time < now && t.status != "Done"
  }

  /** Moving a task to Done makes it not overdue and leaves its due date alone. */
  lemma DoneIsNeverOverdue(t: Task, now: int)
    ensures !IsOverdue(t.(status := "Done"), now)
    ensures t.(status := "Done").dueDate == t.dueDate
  {
  }

  /** A rendered task card: the task and its render-time overdue flag. */
  datatype Card = Card(task: Task, overdue: bool)

  /** The cards for a list of tasks, in list order. */
  function CardsOf(ts: seq<Task>, now: int): (cs: seq<Card>)
    ensures |cs| == |ts|
    ensures forall i :: 0 <= i < |ts| ==> cs[i].task == ts[i] && cs[i].overdue == IsOverdue(ts[i], now)
  {
    if ts == [] then [] else [Card(ts[0], IsOverdue(ts[0], now))] + CardsOf(ts[1..], now)
  }

  // ----------------------------------------------------------------- filters

  /** The three filter selects; the empty string means "All". */
  datatype Filters = Filters(status: string, priority: string, project: string)

  const NoFilters := Filters("", "", "")

  /** `if (value) params[key] = value` */
  function AddParam(p: map<string, string>, key: string, value: string): map<string, string> {
    if value != "" then p[key := value] else p
  }

  /** The query of `GET /tasks`: a key exactly for each non-empty filter. */
  function QueryParams(f: Filters): (p: map<string, string>)
    ensures p.Keys <= {"status", "priority", "projectId"}
    ensures ("status" in p <==> f.status != "") && ("status" in p ==> p["status"] == f.status)
    ensures ("priority" in p <==> f.priority != "") && ("priority" in p ==> p["priority"] == f.priority)
    ensures ("projectId" in p <==> f.project != "") && ("projectId" in p ==> p["projectId"] == f.project)
  {
    AddParam(AddParam(AddParam(map[], "status", f.status), "priority", f.priority), "projectId", f.project)
  }

  /** Setting two different query keys gives the same query in either order. */
  lemma AddParamCommutes(p: map<string, string>, k1: string, v1: string, k2: string, v2: string)
    requires k1 != k2
    ensures AddParam(AddParam(p, k1, v1), k2, v2) == AddParam(AddParam(p, k2, v2), k1, v1)
  {
  }

  /** The query loses nothing: two filter settings with the same query are equal. */
  lemma QueryDeterminesFilters(f: Filters, g: Filters)
    requires QueryParams(f) == QueryParams(g)
    ensures f == g
  {
    var p := QueryParams(f);
    assert ("status" in p ==> p["status"] == g.status) && ("priority" in p ==> p["priority"] == g.priority);
  }

  /** `filterStatus || filterPriority || filterProject`: the clear control is
      shown exactly when the query is not empty. */
  function FiltersActive(f: Filters): (b: bool)
    ensures b <==> QueryParams(f) != map[]
    ensures !b <==> f == NoFilters
  {
    var p := QueryParams(f);
    assert f.status != "" ==> "status" in p;
    assert f.priority != "" ==> "priority" in p;
    assert f.project != "" ==> "projectId" in p;
    f.status != "" || f.priority != "" || f.project != ""
  }

  // ------------------------------------------------------------ list updates

  /** `tasks.map(t => t._id === id ? f(t) : t)` */
  function ReplaceById(ts: seq<Task>, id: Id, f: Task -> Task): (r: seq<Task>)
    ensures |r| == |ts|
    ensures forall i :: 0 <= i < |ts| ==> r[i] == if ts[i].id == id then f(ts[i]) else ts[i]
  {
    if ts == [] then []
    else [if ts[0].id == id then f(ts[0]) else ts[0]] + ReplaceById(ts[1..], id, f)
  }

  /** `{ ...t, status: newStatus, isOverdue: t.dueDate && new Date(t.dueDate) < new Date() && newStatus !== 'Done' }`:
      the refreshed flag agrees with the overdue predicate for the new status. */
  function RestatusFlagged(t: Task, s: string, now: int): (r: Task)
    ensures r.isOverdue == IsOverdue(r, now)
    ensures r.(isOverdue := t.isOverdue) == t.(status := s)
  {
    t.(status := s, isOverdue := t.dueDate.Some? && t.dueDate.value.time < now && s != "Done")
  }

  /** `tasks.filter(t => t._id !== id)`: every task with that id is gone and
      every other task is kept as often as it was. */
  function WithoutTask(ts: seq<Task>, id: Id): (r: seq<Task>)
    ensures forall t :: multiset(r)[t] == if t.id == id then 0 else multiset(ts)[t]
    ensures forall t :: t in r <==> t in ts && t.id != id
  {
    FilterFacts(ts, HasOtherId(id));
    Filter(ts, HasOtherId(id))
  }

  /** Removal keeps the relative order of the remaining tasks. */
  lemma WithoutTaskOrder(a: seq<Task>, b: seq<Task>, id: Id)
    ensures WithoutTask(a + b, id) == WithoutTask(a, id) + WithoutTask(b, id)
  {
    FilterAppend(a, b, HasOtherId(id));
  }

  // ---------------------------------------------------- forms and payloads

  /** The create form of the task list. */
  datatype TaskForm = TaskForm(
    title: string, description: string, status: string, priority: string,
    dueDate: string, projectId: string, assignedTo: string)

  const BlankTaskForm := TaskForm("", "", "Backlog", "Medium", "", "", "")

  /** The guard of the task list's create handler. */
  function CanCreate(f: TaskForm): (b: bool)
    ensures b ==> f.title != "" && f.projectId != ""
  {
    !IsBlank(f.title) && f.projectId != ""
  }

  /** The create guard passes exactly when the title has a character besides
      white space and a project is chosen. */
  lemma CanCreateIff(f: TaskForm)
    ensures CanCreate(f) <==> (exists i :: 0 <= i < |f.title| && !IsSpace(f.title[i])) && f.projectId != ""
  {
  }

  /** `{ ...form, assignedTo: form.assignedTo || undefined, dueDate: form.dueDate || undefined }` */
  function CreatePayload(f: TaskForm): (p: TaskPayload)
    ensures p.title == f.title && p.description == f.description
    ensures p.status == f.status && p.priority == f.priority
    ensures p.projectId == Some(f.projectId)
    ensures p.dueDate.None? <==> f.dueDate == ""
    ensures p.dueDate.Some? ==> p.dueDate.value == f.dueDate
    ensures p.assignedTo.None? <==> f.assignedTo == ""
    ensures p.assignedTo.Some? ==> p.assignedTo.value == f.assignedTo
  {
    TaskPayload(f.title, f.description, f.status, f.priority,
                OrAbsent(f.dueDate), OrAbsent(f.assignedTo), Some(f.projectId))
  }

  /** The form a payload was made from: absent fields read back as empty. */
  function TaskFormOf(p: TaskPayload): TaskForm {
    TaskForm(p.title, p.description, p.status, p.priority,
             p.dueDate.GetOr(""), p.projectId.GetOr(""), p.assignedTo.GetOr(""))
  }

  /** The create payload carries every form field: only empty assignee and
      due date turn into absent ones, and the form is recovered from it. */
  lemma CreatePayloadKeepsForm(f: TaskForm)
    ensures TaskFormOf(CreatePayload(f)) == f
    ensures CreatePayload(f).dueDate.None? <==> f.dueDate == ""
    ensures CreatePayload(f).assignedTo.None? <==> f.assignedTo == ""
  {
  }

  /** The add/edit form of the project page (it has no project field). */
  datatype DetailForm = DetailForm(
    title: string, description: string, status: string, priority: string,
    dueDate: string, assignedTo: string)

  /** `resetForm()` */
  const BlankDetailForm := DetailForm("", "", "Backlog", "Medium", "", "")

  /** `text.slice(0, 10)`: the date part of an ISO date-time. */
  function DatePart(text: string): (r: string)
    ensures |r| == if |text| < 10 then |text| else 10
    ensures r == text[..|r|]
  {
    text[..if |text| < 10 then |text| else 10]
  }

  /** `openEdit`'s task-to-form mapping. */
  function FormOf(t: Task): (f: DetailForm)
    ensures f.title == t.title && f.status == t.status && f.priority == t.priority
    ensures f.description == t.description.GetOr("")
    ensures t.dueDate.None? ==> f.dueDate == ""
    ensures t.dueDate.Some? ==>
      var text := t.dueDate.value.text;
      |f.dueDate| == (if |text| < 10 then |text| else 10) && f.dueDate == text[..|f.dueDate|]
    ensures f.assignedTo == t.assignee.GetOr("")
  {
    DetailForm(t.title, t.description.GetOr(""), t.status, t.priority,
               if t.dueDate.Some? then DatePart(t.dueDate.value.text) else "",
               t.assignee.GetOr(""))
  }

  /** The payload of `handleAddTask`: the route's project id is always sent. */
  function AddPayload(f: DetailForm, projectId: Id): (p: TaskPayload)
    ensures p.title == f.title && p.description == f.description
    ensures p.status == f.status && p.priority == f.priority
    ensures p.projectId == Some(projectId)
    ensures p.dueDate.None? <==> f.dueDate == ""
    ensures p.dueDate.Some? ==> p.dueDate.value == f.dueDate
    ensures p.assignedTo.None? <==> f.assignedTo == ""
    ensures p.assignedTo.Some? ==> p.assignedTo.value == f.assignedTo
  {
    TaskPayload(f.title, f.description, f.status, f.priority,
                OrAbsent(f.dueDate), OrAbsent(f.assignedTo), Some(projectId))
  }

  /** The add payload is the create payload of the same fields under the
      route's project: that id is always present, every field is carried,
      and only an empty due date or assignee becomes absent. */
  lemma AddPayloadKeepsForm(f: DetailForm, projectId: Id)
    ensures AddPayload(f, projectId).projectId == Some(projectId)
    ensures AddPayload(f, projectId)
         == CreatePayload(TaskForm(f.title, f.description, f.status, f.priority, f.dueDate, projectId, f.assignedTo))
    ensures AddPayload(f, projectId).dueDate.None? <==> f.dueDate == ""
    ensures AddPayload(f, projectId).assignedTo.None? <==> f.assignedTo == ""
    ensures TaskFormOf(AddPayload(f, projectId))
         == TaskForm(f.title, f.description, f.status, f.priority, f.dueDate, projectId, f.assignedTo)
  {
  }

  /** The payload of `handleEditTask`: the same fields, without a project. */
  function EditPayload(f: DetailForm): (p: TaskPayload)
    ensures p.projectId.None?
    ensures p == AddPayload(f, "").(projectId := None)
  {
    TaskPayload(f.title, f.description, f.status, f.priority,
                OrAbsent(f.dueDate), OrAbsent(f.assignedTo), None)
  }

  /** Saving the edit form unchanged sends the task's own fields back: its
      due date cut to the date part, its assignee's id, and an empty
      description for a missing one. */
  lemma EditUnchangedSendsTask(t: Task)
    requires t.assignee != Some("")
    requires t.dueDate.Some? ==> t.dueDate.value.text != ""
    ensures var p := EditPayload(FormOf(t));
      && p.title == t.title && p.status == t.status && p.priority == t.priority
      && p.description == t.description.GetOr("")
      && p.assignedTo == t.assignee
      && p.dueDate == (if t.dueDate.Some? then Some(DatePart(t.dueDate.value.text)) else None)
  {
  }
}
