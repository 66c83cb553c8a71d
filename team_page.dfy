/** The team page (`TeamPage`): the member list, the per-member workload
    counted from the task list, the completion percentage, the admin/member
    split and the avatar initials. */
module TeamView {
  import opened Common
  import opened Entities
  import opened Api
  import opened TaskBoard

  /** One workload entry, `{ total, done }`. */
  datatype Count = Count(total: nat, done: nat)

  /** `t.assignedTo?._id` is truthy and equals `id`. */
  function AssignedTo(id: Id): Task -> bool {
    (t: Task) => t.assignee.Some? && t.assignee.value != "" && t.assignee.value == id
  }

  /** The ids of the loaded members. */
  function MemberIds(ms: seq<Member>): set<Id> {
    set m | m in ms :: m.id
  }

  /** The tasks credited to member id `id`. */
  function TotalFor(ts: seq<Task>, id: Id): nat {
    |Filter(ts, AssignedTo(id))|
  }

  /** Those of them that are Done. */
  function DoneFor(ts: seq<Task>, id: Id): nat {
    |Filter(Filter(ts, AssignedTo(id)), HasStatus("Done"))|
  }

  /** What the counting loops build: one entry per loaded member id, with the
      tasks credited to that id and the Done ones among them. */
  function WorkloadSpec(ms: seq<Member>, ts: seq<Task>): map<Id, Count> {
    map id | id in MemberIds(ms) :: Count(TotalFor(ts, id), DoneFor(ts, id))
  }

  lemma CountStep(ts: seq<Task>, t: Task, id: Id)
    ensures TotalFor(ts + [t], id) == TotalFor(ts, id) + (if AssignedTo(id)(t) then 1 else 0)
    ensures DoneFor(ts + [t], id) == DoneFor(ts, id) + (if AssignedTo(id)(t) && t.status == "Done" then 1 else 0)
  {
    FilterAppend(ts, [t], AssignedTo(id));
    FilterSingleton(t, AssignedTo(id));
    var a := Filter(ts, AssignedTo(id));
    var b := Filter([t], AssignedTo(id));
    FilterAppend(a, b, HasStatus("Done"));
    FilterSingleton(t, HasStatus("Done"));
  }

  /** One more member: one more `{0, 0}` entry (an id seen before keeps its
      single entry). */
  lemma EnrolStep(ms: seq<Member>, m: Member)
    ensures WorkloadSpec(ms + [m], []) == WorkloadSpec(ms, [])[m.id := Count(0, 0)]
  {
    assert MemberIds(ms + [m]) == MemberIds(ms) + {m.id};
  }

  /** The effect of one task on the entries: the entry of its assignee, if
      it has one, gains one total and, for a Done task, one done. */
  function Credit(w: map<Id, Count>, t: Task): map<Id, Count> {
    if t.assignee.Some? && t.assignee.value != "" && t.assignee.value in w then
      var c := w[t.assignee.value];
      w[t.assignee.value := Count(c.total + 1, if t.status == "Done" then c.done + 1 else c.done)]
    else w
  }

  lemma CreditEntry(ms: seq<Member>, ts: seq<Task>, t: Task, id: Id)
    requires id in MemberIds(ms)
    ensures id in Credit(WorkloadSpec(ms, ts), t)
    ensures Credit(WorkloadSpec(ms, ts), t)[id] == Count(TotalFor(ts + [t], id), DoneFor(ts + [t], id))
  {
    CountStep(ts, t, id);
    var w := WorkloadSpec(ms, ts);
    assert w[id] == Count(TotalFor(ts, id), DoneFor(ts, id));
    if t.assignee.Some? && t.assignee.value != "" && t.assignee.value in w && t.assignee.value == id {
      assert AssignedTo(id)(t);
    } else {
      assert !AssignedTo(id)(t);
    }
  }

  /** Crediting one more task to the counts of a list gives the counts of the
      longer list. */
  lemma CreditStep(ms: seq<Member>, ts: seq<Task>, t: Task)
    ensures WorkloadSpec(ms, ts + [t]) == Credit(WorkloadSpec(ms, ts), t)
  {
    var w2 := WorkloadSpec(ms, ts + [t]);
    var u := Credit(WorkloadSpec(ms, ts), t);
    assert u.Keys == MemberIds(ms) == w2.Keys;
    forall id | id in u
      ensures u[id] == w2[id]
    {
      CreditEntry(ms, ts, t, id);
    }
    MapsAgree(u, w2);
  }

  lemma MapsAgree(a: map<Id, Count>, b: map<Id, Count>)
    requires a.Keys == b.Keys
    requires forall k :: k in a ==> a[k] == b[k]
    ensures a == b
  {
  }

  /** The body of the task loop: `counts[aid].total += 1`, and `done += 1`
      for a Done task, when the assignee id `aid` is truthy and has an entry. */
  method CreditTask(counts: map<Id, Count>, t: Task) returns (r: map<Id, Count>)
    ensures r == Credit(counts, t)
  {
    r := counts;
    if t.assignee.Some? && t.assignee.value != "" && t.assignee.value in r {
      var aid := t.assignee.value;
      var c := r[aid];
      r := r[aid := Count(c.total + 1, c.done)];
      if t.status == "Done" {
        r := r[aid := Count(c.total + 1, c.done + 1)];
      }
    }
  }

  /** The two `forEach` loops: first an entry `{0, 0}` for every member id,
      then, for each task whose assignee id has an entry, one more total and,
      for a Done task, one more done. */
  method CountWorkload(ms: seq<Member>, ts: seq<Task>) returns (counts: map<Id, Count>)
    ensures counts == WorkloadSpec(ms, ts)
  {
    counts := EnrolMembers(ms);
    counts := CreditTasks(ms, ts, counts);
  }

  /** The member loop: one `{0, 0}` entry per member id. */
  method EnrolMembers(ms: seq<Member>) returns (counts: map<Id, Count>)
    ensures counts == WorkloadSpec(ms, [])
  {
    counts := map[];
    var i := 0;
    while i < |ms|
      invariant 0 <= i <= |ms|
      invariant counts == WorkloadSpec(ms[..i], [])
    {
      assert ms[..i + 1] == ms[..i] + [ms[i]];
      EnrolStep(ms[..i], ms[i]);
      counts := counts[ms[i].id := Count(0, 0)];
      i := i + 1;
    }
    assert ms[..i] == ms;
  }

  /** The task loop over the enrolled entries. */
  method CreditTasks(ms: seq<Member>, ts: seq<Task>, start: map<Id, Count>) returns (counts: map<Id, Count>)
    requires start == WorkloadSpec(ms, [])
    ensures counts == WorkloadSpec(ms, ts)
  {
    counts := start;
    assert ts[..0] == [];
    var j := 0;
    while j < |ts|
      invariant 0 <= j <= |ts|
      invariant counts == WorkloadSpec(ms, ts[..j])
    {
      var t := ts[j];
      counts := CreditTask(counts, t);
      assert ts[..j + 1] == ts[..j] + [t];
      CreditStep(ms, ts[..j], t);
      j := j + 1;
    }
    assert ts[..j] == ts;
  }

  /** Every entry has `done <= total`, and an entry is non-zero only for a
      member who has a task credited. */
  lemma WorkloadBounds(ms: seq<Member>, ts: seq<Task>, id: Id)
    requires id in WorkloadSpec(ms, ts)
    ensures WorkloadSpec(ms, ts)[id].done <= WorkloadSpec(ms, ts)[id].total
    ensures WorkloadSpec(ms, ts)[id].total > 0 ==> exists t :: t in ts && t.assignee == Some(id) && id != ""
  {
    var cs := Filter(ts, AssignedTo(id));
    FilterFacts(ts, AssignedTo(id));
    if |cs| > 0 {
      assert cs[0] in cs;
    }
  }

  /** Tasks whose assignee is one of `ids`. */
  function AssignedAmong(ids: seq<Id>): Task -> bool {
    (t: Task) => t.assignee.Some? && t.assignee.value != "" && t.assignee.value in ids
  }

  /** The sum of the totals of `ids`. */
  function SumTotals(w: map<Id, Count>, ids: seq<Id>): nat
    requires forall i :: 0 <= i < |ids| ==> ids[i] in w
  {
    if ids == [] then 0 else w[ids[0]].total + SumTotals(w, ids[1..])
  }

  /** Over a duplicate-free list of the member ids, the totals add up to the
      number of tasks credited to some loaded member: no task is counted
      twice and none is lost. */
  lemma {:induction false} TotalsAddUp(ms: seq<Member>, ts: seq<Task>, ids: seq<Id>)
    requires forall i, j :: 0 <= i < j < |ids| ==> ids[i] != ids[j]
    requires forall i :: 0 <= i < |ids| ==> ids[i] in MemberIds(ms)
    ensures SumTotals(WorkloadSpec(ms, ts), ids) == |Filter(ts, AssignedAmong(ids))|
  {
    if ids == [] {
      assert forall t :: !AssignedAmong(ids)(t);
      FilterNone(ts, AssignedAmong(ids));
    } else {
      TotalsAddUp(ms, ts, ids[1..]);
      forall t ensures AssignedAmong(ids)(t) == (AssignedTo(ids[0])(t) || AssignedAmong(ids[1..])(t)) {
        assert ids == [ids[0]] + ids[1..];
      }
      FilterDisjointCount(ts, AssignedTo(ids[0]), AssignedAmong(ids[1..]), AssignedAmong(ids));
    }
  }

  /** `taskCounts[id] || { total: 0, done: 0 }`. */
  function CountsOf(counts: map<Id, Count>, id: Id): (c: Count)
    ensures id in counts ==> c == counts[id]
    ensures id !in counts ==> c == Count(0, 0)
  {
    if id in counts then counts[id] else Count(0, 0)
  }

  /** `pct`: 0 for no tasks, else `done / total * 100` rounded half up,
      computed in integers. */
  function Pct(c: Count): (r: nat)
    ensures c.total == 0 ==> r == 0
    ensures c.total > 0 ==> r * (2 * c.total) <= 200 * c.done + c.total < (r + 1) * (2 * c.total)
    ensures c.done <= c.total ==> r <= 100
  {
    if c.total == 0 then 0
    else
      var x, y := 200 * c.done + c.total, 2 * c.total;
      var q := x / y;
      assert x == q * y + x % y;
      assert (q + 1) * y == q * y + y;
      assert c.done <= c.total ==> q <= 100 by {
        if c.done <= c.total && q > 100 {
          MulMono(101, q, y);
        }
      }
      q
  }

  /** No task done gives 0, all done 100, exactly half done 50. */
  lemma PctExtremes(c: Count)
    requires c.total > 0
    ensures c.done == 0 ==> Pct(c) == 0
    ensures c.done == c.total ==> Pct(c) == 100
    ensures 2 * c.done == c.total ==> Pct(c) == 50
  {
    var x, y := 200 * c.done + c.total, 2 * c.total;
    if c.done == 0 { DivBracket(x, y, 0); }
    if c.done == c.total { DivBracket(x, y, 100); }
    if 2 * c.done == c.total { DivBracket(x, y, 50); }
  }

  function HasRole(role: string): Member -> bool {
    (m: Member) => m.role == role
  }

  /** The members with role `role`, in list order, each as often as listed. */
  function WithRole(ms: seq<Member>, role: string): (r: seq<Member>)
    ensures forall m :: m in r <==> m in ms && m.role == role
    ensures forall m :: multiset(r)[m] == if m.role == role then multiset(ms)[m] else 0
  {
    FilterFacts(ms, HasRole(role));
    Filter(ms, HasRole(role))
  }

  /** The sections keep list order: a section of a concatenation is the
      concatenation of the sections, and a one-member list keeps its member
      exactly when the role matches. */
  lemma WithRoleOrder(a: seq<Member>, b: seq<Member>, m: Member, role: string)
    ensures WithRole(a + b, role) == WithRole(a, role) + WithRole(b, role)
    ensures WithRole([m], role) == if m.role == role then [m] else []
  {
    FilterAppend(a, b, HasRole(role));
    FilterSingleton(m, HasRole(role));
  }

  /** No member is in both sections (`admins` is the section of "Admin",
      `regular` that of "Member"), and a loaded list split in two keeps each
      section's order. */
  lemma RoleSections(a: seq<Member>, b: seq<Member>, m: Member)
    ensures !(m in WithRole(a, "Admin") && m in WithRole(a, "Member"))
    ensures WithRole(a + b, "Admin") == WithRole(a, "Admin") + WithRole(b, "Admin")
    ensures WithRole(a + b, "Member") == WithRole(a, "Member") + WithRole(b, "Member")
  {
    WithRoleOrder(a, b, m, "Admin");
    WithRoleOrder(a, b, m, "Member");
  }

  /** ASCII `toUpperCase` of one character. */
  function UpperChar(c: char): char {
    if 'a' <= c <= 'z' then (c as int - 32) as char else c
  }

  function Upper(s: string): (r: string)
    ensures |r| == |s|
    ensures forall i :: 0 <= i < |s| ==> r[i] == UpperChar(s[i])
  {
    if s == [] then [] else [UpperChar(s[0])] + Upper(s[1..])
  }

  /** `words.map(n => n[0]).join('')`: the first character of every word; an
      empty word gives `undefined`, which the join turns into nothing. */
  function Heads(ws: seq<string>): (r: string)
    ensures |r| <= |ws|
  {
    if ws == [] then ""
    else (if ws[0] == "" then "" else [ws[0][0]]) + Heads(ws[1..])
  }

  /** A word list whose words are all non-empty has exactly one head each. */
  lemma {:induction false} HeadsOfWords(ws: seq<string>)
    requires forall i :: 0 <= i < |ws| ==> ws[i] != ""
    ensures |Heads(ws)| == |ws|
    ensures forall i :: 0 <= i < |ws| ==> Heads(ws)[i] == ws[i][0]
  {
    if ws != [] {
      HeadsOfWords(ws[1..]);
    }
  }

  /** A piece `split(' ')` leaves between two adjacent spaces, or before a
      leading or after a trailing one. */
  predicate NonEmptyWord(w: string) {
    w != ""
  }

  /** Whatever the spacing of the name, the heads are exactly the first
      characters of its non-empty pieces, in order: empty pieces contribute
      nothing. */
  lemma {:induction false} HeadsSkipEmpty(ws: seq<string>)
    ensures Heads(ws) == Heads(Filter(ws, NonEmptyWord))
    ensures |Heads(ws)| == |Filter(ws, NonEmptyWord)|
    ensures forall i :: 0 <= i < |Filter(ws, NonEmptyWord)| ==>
      Filter(ws, NonEmptyWord)[i] != "" && Heads(ws)[i] == Filter(ws, NonEmptyWord)[i][0]
  {
    if ws != [] {
      HeadsSkipEmpty(ws[1..]);
      var f := Filter(ws[1..], NonEmptyWord);
      if ws[0] != "" {
        var g := [ws[0]] + f;
        assert Filter(ws, NonEmptyWord) == g;
        assert g[0] == ws[0] && g[1..] == f;
      }
    }
    FilterFacts(ws, NonEmptyWord);
    var ne := Filter(ws, NonEmptyWord);
    assert forall i :: 0 <= i < |ne| ==> ne[i] in ne;
    HeadsOfWords(ne);
  }

  /** `initials`: at most two characters, the upper-cased first characters of
      the space-separated words, in order. */
  function Initials(name: string): (r: string)
    ensures |r| == if |Heads(Split(name))| < 2 then |Heads(Split(name))| else 2
    ensures r == Upper(Heads(Split(name)))[..|r|]
  {
    var h := Upper(Heads(Split(name)));
    if |h| <= 2 then h else h[..2]
  }

  /** A name made of non-empty words joined by single spaces: its initials
      are the upper-cased first letters of its first two words. */
  lemma InitialsOfWords(ws: seq<string>)
    requires |ws| >= 1
    requires forall i :: 0 <= i < |ws| ==> ws[i] != "" && ' ' !in ws[i]
    ensures |Initials(JoinSpaces(ws))| == if |ws| < 2 then 1 else 2
    ensures Initials(JoinSpaces(ws))[0] == UpperChar(ws[0][0])
    ensures |ws| >= 2 ==> Initials(JoinSpaces(ws))[1] == UpperChar(ws[1][0])
  {
    SplitJoin(ws);
    HeadsOfWords(ws);
  }

  /** One member card. */
  datatype MemberCard = MemberCard(member: Member, initials: string, done: nat, total: nat, pct: nat)

  class TeamPage {
    var members: seq<Member>
    var taskCounts: map<Id, Count>
    var loading: bool
    ghost var log: seq<Request>

    /** Each entry's done count stays within its total. */
    predicate Valid()
      reads this
    {
      forall id :: id in taskCounts ==> taskCounts[id].done <= taskCounts[id].total
    }

    constructor ()
      ensures members == [] && taskCounts == map[] && loading && log == []
      ensures Valid()
    {
      members, taskCounts, loading := [], map[], true;
      log := [];
    }

    /** The mount effect: members and tasks are requested together; only when
        both arrive are the members and the counts replaced, a failure being
        ignored. Loading ends either way. */
    method FetchData(mRes: Response<seq<Member>>, tRes: Response<seq<Task>>)
      requires Valid()
      modifies this`members, this`taskCounts, this`loading, this`log
      ensures Valid()
      ensures log == old(log) + [Get("/org/members", map[]), Get("/tasks", map[])]
      ensures mRes.Success? && tRes.Success? ==>
        members == mRes.data && taskCounts == WorkloadSpec(mRes.data, tRes.data)
      ensures !(mRes.Success? && tRes.Success?) ==>
        members == old(members) && taskCounts == old(taskCounts)
      ensures !loading
    {
      log := log + [Get("/org/members", map[]), Get("/tasks", map[])];
      if mRes.Success? && tRes.Success? {
        members := mRes.data;
        var counts := CountWorkload(mRes.data, tRes.data);
        forall id | id in counts
          ensures counts[id].done <= counts[id].total
        {
          WorkloadBounds(mRes.data, tRes.data, id);
        }
        taskCounts := counts;
      }
      loading := false;
    }

    /** The card of member `m`: its initials, its counts (zero when it has no
        entry) and the percentage, which never exceeds 100. */
    function Card(m: Member): (c: MemberCard)
      requires Valid()
      reads this
      ensures c.member == m && c.initials == Initials(m.name)
      ensures Count(c.total, c.done) == CountsOf(taskCounts, m.id)
      ensures c.pct == Pct(CountsOf(taskCounts, m.id)) && c.pct <= 100
    {
      var k := CountsOf(taskCounts, m.id);
      MemberCard(m, Initials(m.name), k.done, k.total, Pct(k))
    }

    /** The two sections, admins first. */
    function Sections(): (r: (seq<Member>, seq<Member>))
      reads this
      ensures forall m :: multiset(r.0)[m] == if m.role == "Admin" then multiset(members)[m] else 0
      ensures forall m :: multiset(r.1)[m] == if m.role == "Member" then multiset(members)[m] else 0
      ensures forall m :: !(m in r.0 && m in r.1)
    {
      (WithRole(members, "Admin"), WithRole(members, "Member"))
    }
  }
}
