/** The dashboard (`DashboardPage`): one `GET /dashboard`, then derived
    views of its payload: the two bar charts scaled to their largest count
    (never below 1), counts read with a default of 0 for absent keys, and
    the recent-task list shown in the order received. */
module DashboardView {
  import opened Common
  import opened Entities
  import opened TaskBoard

  /** The payload of `GET /dashboard`. The totals and the completion rate are
      computed by the server and only displayed. */
  datatype DashboardData = DashboardData(
    totalProjects: int,
    totalTasks: int,
    doneTasks: int,
    completedPercentage: int,
    overdueTasks: int,
    tasksByStatus: map<string, nat>,
    tasksByPriority: map<string, nat>,
    recentTasks: seq<Task>)

  /** The three pieces of page state. */
  datatype DashboardState = DashboardState(loading: bool, error: string, data: Option<DashboardData>)

  const Initial := DashboardState(true, "", None)

  const Priorities: seq<string> := ["High", "Medium", "Low"]

  /** The mount effect: on success the payload is kept, on failure the error
      is set; loading is over either way. */
  function Loaded(st: DashboardState, res: Response<DashboardData>): (r: DashboardState)
    ensures !r.loading
    ensures res.Success? ==> r.data == Some(res.data) && r.error == st.error
    ensures res.Failure? ==> r.data == st.data && r.error == "Failed to load dashboard"
  {
    match res
    case Success(d) => st.(loading := false, data := Some(d))
    case Failure(_) => st.(loading := false, error := "Failed to load dashboard")
  }

  /** `m[k] || 0`: a count absent from the payload reads as 0. */
  function CountOf(m: map<string, nat>, k: string): (c: nat)
    ensures k in m ==> c == m[k]
    ensures k !in m ==> c == 0
  {
    if k in m then m[k] else 0
  }

  /** The counts of `keys`, in order. */
  function Counts(m: map<string, nat>, keys: seq<string>): (cs: seq<nat>)
    ensures |cs| == |keys|
    ensures forall i :: 0 <= i < |keys| ==> cs[i] == CountOf(m, keys[i])
  {
    if keys == [] then [] else [CountOf(m, keys[0])] + Counts(m, keys[1..])
  }

  /** `Math.max(...xs, floor)`: at least `floor`, at least every element, and
      one of them; once some element reaches the floor, the largest element. */
  function MaxWithFloor(xs: seq<nat>, floor: nat): (r: nat)
    ensures r >= floor
    ensures forall i :: 0 <= i < |xs| ==> xs[i] <= r
    ensures r == floor || r in xs
    ensures (exists i :: 0 <= i < |xs| && xs[i] >= floor) ==> r in xs
  {
    if xs == [] then floor
    else
      var m := MaxWithFloor(xs[1..], floor);
      assert forall x :: x in xs[1..] ==> x in xs;
      if xs[0] > m then xs[0] else m
  }

  /** `maxCount`: 1 without a payload, else the stage counts' maximum with
      floor 1. */
  function MaxCount(data: Option<DashboardData>): (r: nat)
    ensures r >= 1
    ensures data.Some? ==> forall i :: 0 <= i < |Stages| ==> CountOf(data.value.tasksByStatus, Stages[i]) <= r
    ensures data.Some? && (exists i :: 0 <= i < |Stages| && CountOf(data.value.tasksByStatus, Stages[i]) >= 1) ==>
      exists j :: 0 <= j < |Stages| && CountOf(data.value.tasksByStatus, Stages[j]) == r
  {
    if data.None? then 1 else MaxWithFloor(Counts(data.value.tasksByStatus, Stages), 1)
  }

  /** `maxPrio`: the same over the High, Medium and Low counts. */
  function MaxPrio(data: Option<DashboardData>): (r: nat)
    ensures r >= 1
    ensures data.Some? ==> forall i :: 0 <= i < |Priorities| ==> CountOf(data.value.tasksByPriority, Priorities[i]) <= r
    ensures data.Some? && (exists i :: 0 <= i < |Priorities| && CountOf(data.value.tasksByPriority, Priorities[i]) >= 1) ==>
      exists j :: 0 <= j < |Priorities| && CountOf(data.value.tasksByPriority, Priorities[j]) == r
  {
    if data.None? then 1 else MaxWithFloor(Counts(data.value.tasksByPriority, Priorities), 1)
  }

  /** One row of a bar chart: its caption, the displayed count and the scale
      the width is relative to (`count / scale * 100` percent). */
  datatype Bar = Bar(caption: string, count: nat, scale: nat)

  /** A bar that fits: positive scale and count within it, so the width lies
      between 0% and 100%. */
  predicate Fits(b: Bar) {
    b.scale > 0 && b.count <= b.scale
  }

  function BarsOf(m: map<string, nat>, keys: seq<string>, scale: nat): (bs: seq<Bar>)
    ensures |bs| == |keys|
    ensures forall i :: 0 <= i < |keys| ==> bs[i] == Bar(keys[i], CountOf(m, keys[i]), scale)
  {
    if keys == [] then [] else [Bar(keys[0], CountOf(m, keys[0]), scale)] + BarsOf(m, keys[1..], scale)
  }

  /** The "Tasks by Stage" chart: one bar per stage, in stage order, every
      one of which fits. */
  function StageBars(d: DashboardData): (bs: seq<Bar>)
    ensures |bs| == |Stages|
    ensures forall i :: 0 <= i < |Stages| ==>
      bs[i].caption == Stages[i] && bs[i].count == CountOf(d.tasksByStatus, Stages[i]) && Fits(bs[i])
  {
    BarsOf(d.tasksByStatus, Stages, MaxCount(Some(d)))
  }

  /** The "Tasks by Priority" chart: High, Medium, Low, every bar fitting. */
  function PriorityBars(d: DashboardData): (bs: seq<Bar>)
    ensures |bs| == |Priorities|
    ensures forall i :: 0 <= i < |Priorities| ==>
      bs[i].caption == Priorities[i] && bs[i].count == CountOf(d.tasksByPriority, Priorities[i]) && Fits(bs[i])
  {
    BarsOf(d.tasksByPriority, Priorities, MaxPrio(Some(d)))
  }

  /** A fitting bar is at most 100% wide, and exactly 100% wide when its
      count is the scale. */
  lemma FitsWidth(b: Bar)
    requires Fits(b)
    ensures 0 <= b.count * 100 / b.scale <= 100
    ensures b.count == b.scale ==> b.count * 100 / b.scale == 100
  {
    MulMono(b.count, b.scale, 100);
    DivAtMost(b.count * 100, b.scale, 100);
    if b.count == b.scale {
      DivBracket(b.count * 100, b.scale, 100);
    }
  }

  /** The recent-tasks section. */
  datatype Recent = NoTasksYet | Rows(cards: seq<Card>)

  /** The empty state exactly when there are no recent tasks; otherwise one
      card per task, in the order received, flagged by the overdue predicate. */
  function RecentView(ts: seq<Task>, now: int): (r: Recent)
    ensures r.NoTasksYet? <==> ts == []
    ensures r.Rows? ==> |r.cards| == |ts|
    ensures r.Rows? ==> forall i :: 0 <= i < |ts| ==> r.cards[i].task == ts[i] && r.cards[i].overdue == IsOverdue(ts[i], now)
  {
    if ts == [] then NoTasksYet else Rows(CardsOf(ts, now))
  }

  /** The header greeting: the first space-separated piece of the signed-in
      user's name, nothing when nobody is signed in. */
  function Greeting(user: Option<Identity>): (g: Option<string>)
    ensures g.None? <==> user.None?
    ensures g.Some? ==> g.value <= user.value.name && ' ' !in g.value
    ensures g.Some? && ' ' in user.value.name ==> user.value.name[|g.value|] == ' '
    ensures g.Some? && ' ' !in user.value.name ==> g.value == user.value.name
  {
    match user
    case None => None
    case Some(u) => SplitFirstPrefix(u.name); Some(Split(u.name)[0])
  }

  /** The first piece of a split is a prefix of the string, followed by a space
      when the string has one. */
  lemma {:induction false} SplitFirstPrefix(s: string)
    ensures Split(s)[0] <= s
    ensures ' ' in s ==> |Split(s)[0]| < |s| && s[|Split(s)[0]|] == ' '
    ensures ' ' !in s ==> Split(s)[0] == s
  {
    if s != [] && s[0] != ' ' {
      SplitFirstPrefix(s[1..]);
      assert ' ' in s ==> ' ' in s[1..];
      assert ' ' !in s ==> ' ' !in s[1..] && s == [s[0]] + s[1..];
    }
  }

  /** What the page shows. */
  datatype Screen = Spinner | ErrorText(text: string) | Overview(stages: seq<Bar>, priorities: seq<Bar>, recent: Recent)

  /** The spinner while loading, then the error if there is one, otherwise
      the charts and the recent tasks. The page reads the payload
      unconditionally after those two checks, so a state with neither an
      error nor a payload is not one it can render. */
  function Render(st: DashboardState, now: int): (sc: Screen)
    requires st.loading || st.error != "" || st.data.Some?
    ensures st.loading ==> sc == Spinner
    ensures !st.loading && st.error != "" ==> sc == ErrorText(st.error)
    ensures sc.Overview? ==>
      && sc.stages == StageBars(st.data.value) && sc.priorities == PriorityBars(st.data.value)
      && sc.recent == RecentView(st.data.value.recentTasks, now)
    ensures sc.Overview? <==> !st.loading && st.error == ""
  {
    if st.loading then Spinner
    else if st.error != "" then ErrorText(st.error)
    else
      var d := st.data.value;
      Overview(StageBars(d), PriorityBars(d), RecentView(d.recentTasks, now))
  }

  /** The state after the load is always renderable: the charts after a
      success, the error after a failure. */
  lemma LoadedRenders(res: Response<DashboardData>, now: int)
    ensures var st := Loaded(Initial, res);
      (st.loading || st.error != "" || st.data.Some?) &&
      (res.Success? ==> Render(st, now).Overview?) &&
      (res.Failure? ==> Render(st, now) == ErrorText("Failed to load dashboard"))
  {
  }
}
