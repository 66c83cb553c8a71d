# flowdesk-frontend: the client-side task and project state, in Dafny

This project models the state engine of the flowdesk web client, a tracker
in which members of an organization work on projects made of tasks. The
model covers six parts: the five pages that hold and derive state and the
session provider.

- **Task board** (`TasksView.TasksPage`). The task list fetched under three
  optional filters, the create form with its guard, and the status-change
  and delete handlers. The view groups the list into the four stages
  Backlog, Todo, In Progress and Done.
- **Project page** (`ProjectDetailView.ProjectDetailPage`). The project, its
  tasks and the members, loaded together with a redirect to `/projects` when
  any of them fails. Also the add and edit modals and the per-stage board
  with its render-time overdue flag.
- **Dashboard** (`DashboardView`). One load of the server's overview. The two
  bar charts are scaled to their largest count, which is never below 1. The
  page also shows the greeting and the recent tasks.
- **Team page** (`TeamView.TeamPage`). The member list and the per-member
  workload counted by two loops over the members and tasks. Also the
  completion percentage, the Admin/Member sections and the avatar initials.
- **Project list** (`ProjectsView.ProjectsPage`). The controls only admins
  get, create with its blank-name guard, and delete; both refetch the list.
- **Session** (`Session.AuthProvider`). The signed-in user, kept in memory
  and in the `token` and `user` local-storage keys. Login, register and join
  write both keys, logout removes them, and a new provider restores the user.

Everything the pages share is defined once:

- the stage buckets, the overdue predicate, the filter query, the by-id list
  updates and the form-to-payload mappings (`TaskBoard`);
- the JavaScript idioms the pages rely on (`Common`): `trim`, `split(' ')`,
  `filter`, and `x || undefined` / `x || fallback`, where an empty string
  counts as falsy;
- the fragment of JSON the session store needs (`Json`);
- the requests, as values (`Api`).

The task board, the project page, the team page, the project list and the
session provider, whose handlers change state with React `useState` setters,
are classes, and each handler is a method. The dashboard's three setters all
run in its one mount effect, so it is modelled by the function `Loaded` over a
`DashboardState` value. A handler's `modifies` clause names the
state it changes. Its `ensures` clauses give the whole new state and the
requests it sent, recorded in the ghost `log`. Redirects are recorded in the
ghost `navigations`.

The outcome of every awaited request is an input to the handler: a
`Response` that is either the data or a failure with the server's optional
message. The answer to `window.confirm` and the current time are inputs too.

The loops of the team page are proved against `WorkloadSpec`. That function
gives, for each member id, the number of tasks credited to the member and how
many of those are done. Lemmas about the specification functions state what
the pages promise:

- The four stage buckets partition the tasks whose status is a known stage,
  keep their order, and share no task.
- The workload totals add up to the number of tasks assigned to a listed member.
- The filter query loses no filter.
- Removing a task keeps the others, in order.
- Every bar fits its chart, and the percentage lies within 0..100 with its
  rounding bracket.
- Initials are the upper-cased first letters of the first two words.
- `split(' ')` followed by `join(' ')` gives the name back, and the reverse
  holds for space-free words.
- A stored user reads back unchanged: `JSON.parse` of `JSON.stringify` is the
  identity on stored users. After a sign-in, a new provider restores that
  user; after a logout, it restores nobody.

**Status change and delete are not optimistic.** Both page handlers `await`
the request before they touch the list. The list is patched only once the
request has succeeded:

- On the task board, a failed request leaves the list unchanged and shows an
  error toast.
- On the project page, the two handlers have no `catch`. A failed request
  changes nothing and shows nothing.

## Model

| member | source | states |
|---|---|---|
| Common.OrAbsent | src/pages/TasksPage.jsx:73-74 | `x \|\| undefined` for a form field: absent exactly when the field is empty, otherwise the field itself |
| Common.MessageOr | src/pages/TasksPage.jsx:81 | `err.response?.data?.message \|\| fallback`: the result is the fallback or the server's message, and it is empty only when the fallback is |
| Common.TrimStartFacts | src/pages/TasksPage.jsx:68 | trimming the start yields a suffix that does not start with white space; only white space was dropped |
| Common.TrimEndFacts | src/pages/TasksPage.jsx:68 | trimming the end yields a prefix that does not end with white space; only white space was dropped |
| Common.Trim | src/pages/TasksPage.jsx:68 | `s.trim()` is the middle of `s`: only white space is dropped, at the start and at the end, and what is left neither starts nor ends with white space |
| Common.IsBlank | src/pages/TasksPage.jsx:68 | `!s.trim()` holds exactly when every character of `s` is ECMAScript white space |
| Common.Filter | src/pages/TasksPage.jsx:106 | `Array.prototype.filter` is never longer than its input |
| Common.FilterFacts | src/pages/TasksPage.jsx:106 | a filter keeps each element exactly as often as it occurs when it satisfies the predicate, and never otherwise |
| Common.FilterNone | src/pages/TeamPage.jsx:26 | a predicate that holds of nothing keeps nothing |
| Common.FilterAppend | src/pages/TasksPage.jsx:106 | filtering distributes over concatenation, so it keeps relative order |
| Common.FilterSingleton | src/pages/TeamPage.jsx:26-28 | what a filter keeps of a one-element list |
| Common.FilterDisjointCount | src/pages/TeamPage.jsx:22-30 | filtering by a disjunction of two exclusive conditions keeps as many elements as the two filters together |
| Common.Split | src/pages/DashboardPage.jsx:41 | `split(' ')` always gives at least one piece, and no piece contains a space |
| Common.JoinSplit | src/pages/TeamPage.jsx:49 | joining the pieces of `split(' ')` with single spaces gives the string back |
| Common.SplitJoin | src/pages/TeamPage.jsx:49 | splitting space-free words joined by single spaces gives the words back |
| TaskBoard.GroupFoldFacts | src/pages/TasksPage.jsx:105-108 | the `reduce` over the stages: every stage gets the filter of its status, and every other accumulator entry is kept |
| TaskBoard.GroupFold | src/pages/TasksPage.jsx:105-108 | the `reduce` body over the stages: each stage ends up bound to its status's filter, and every other entry of the accumulator is kept |
| TaskBoard.Grouped | src/pages/TasksPage.jsx:105-108 | `grouped` has exactly the four stage keys, each holding that status's tasks in list order |
| TaskBoard.BucketContents | src/pages/TasksPage.jsx:105-108 | a bucket holds a task exactly as often as the list does when the statuses match, and never otherwise |
| TaskBoard.BucketOrder | src/pages/TasksPage.jsx:105-108 | the bucket of a concatenation is the concatenation of the buckets |
| TaskBoard.StatusBucketCount | src/pages/TasksPage.jsx:106 | how often a task occurs in the filter of one status |
| TaskBoard.FourBucketsCount | src/pages/TasksPage.jsx:105-108 | per task, the counts in four distinct status buckets add up to its count among tasks with one of those statuses |
| TaskBoard.FourBucketsPartition | src/pages/TasksPage.jsx:105-108 | the multiset union of four distinct status buckets is the multiset of tasks with one of those statuses |
| TaskBoard.GroupedPartition | src/pages/TasksPage.jsx:105-108 | the four buckets together hold exactly the tasks with a known stage, each as often as in the list; an unknown status is dropped |
| TaskBoard.GroupedSizes | src/pages/TasksPage.jsx:105-108 | the four column counts add up to the number of tasks with a known stage |
| TaskBoard.BucketsDisjoint | src/pages/TasksPage.jsx:105-108 | no task appears in two different columns |
| TaskBoard.IsOverdue | src/pages/ProjectDetailPage.jsx:206 | a task is overdue only when it is not Done and has a due date; for such a task, exactly when the due date is before now (the same test is at src/pages/DashboardPage.jsx:152) |
| TaskBoard.DoneIsNeverOverdue | src/pages/ProjectDetailPage.jsx:206 | a task moved to Done is not overdue, whatever its due date, and its due date is unchanged |
| TaskBoard.CardsOf | src/pages/ProjectDetailPage.jsx:205-208 | one card per task in list order, flagged overdue exactly when it has a due date before now and is not Done |
| TaskBoard.QueryParams | src/pages/TasksPage.jsx:40-43 | the query of `GET /tasks` has a key exactly for each non-empty filter, holding that filter, and no other key |
| TaskBoard.AddParamCommutes | src/pages/TasksPage.jsx:40-43 | setting two different query keys gives the same query in either order |
| TaskBoard.QueryDeterminesFilters | src/pages/TasksPage.jsx:40-44 | two filter settings that send the same query are equal |
| TaskBoard.FiltersActive | src/pages/TasksPage.jsx:137 | the clear control's condition holds exactly when the query is non-empty, and fails exactly when no filter is set |
| TaskBoard.ReplaceById | src/pages/TasksPage.jsx:88-91 | `map(t => t._id === id ? f(t) : t)`: same length, each task with that id replaced by `f` of it, every other task kept |
| TaskBoard.RestatusFlagged | src/pages/TasksPage.jsx:89 | the patched task has the new status and an overdue flag that agrees with the overdue predicate; nothing else changes |
| TaskBoard.WithoutTask | src/pages/TasksPage.jsx:100 | every task with that id is gone, and every other task is kept as often as it was |
| TaskBoard.WithoutTaskOrder | src/pages/TasksPage.jsx:100 | removal keeps the relative order of the remaining tasks |
| TaskBoard.CanCreate | src/pages/TasksPage.jsx:68 | the guard of the create handler passes only with a non-empty title and a chosen project |
| TaskBoard.CanCreateIff | src/pages/TasksPage.jsx:68 | the guard passes exactly when the title has a character besides white space and a project id is set |
| TaskBoard.CreatePayload | src/pages/TasksPage.jsx:71-75 | the payload carries title, description, status, priority and project; the due date and assignee are absent exactly when empty and carried otherwise |
| TaskBoard.CreatePayloadKeepsForm | src/pages/TasksPage.jsx:71-75 | the create payload carries every form field: only an empty assignee or due date becomes absent, and the form is recoverable from the payload |
| TaskBoard.DatePart | src/pages/ProjectDetailPage.jsx:92 | `slice(0, 10)`: the first ten characters, or the whole text when it is shorter |
| TaskBoard.FormOf | src/pages/ProjectDetailPage.jsx:87-94 | the edit form takes the task's title, status and priority, its description or "", the date part of its due date or "", and its assignee id or "" |
| TaskBoard.AddPayload | src/pages/ProjectDetailPage.jsx:62 | the payload carries every form field and the route's project id; the due date and assignee are absent exactly when empty |
| TaskBoard.AddPayloadKeepsForm | src/pages/ProjectDetailPage.jsx:62 | the add payload always carries the route's project id and every form field; only an empty due date or assignee becomes absent, and the form is recoverable from it |
| TaskBoard.EditPayload | src/pages/ProjectDetailPage.jsx:75 | the edit payload has the add payload's fields and no project id |
| TaskBoard.EditUnchangedSendsTask | src/pages/ProjectDetailPage.jsx:85-94 | saving the edit form unchanged sends back the task's own fields, with the due date cut to its date part |
| TasksView.TasksPage.constructor | src/pages/TasksPage.jsx:17-31 | the initial page state: empty lists, loading, no filters, the blank form with Backlog and Medium |
| TasksView.TasksPage.ClearShown | src/pages/TasksPage.jsx:137 | the clear control is shown exactly when some filter is set |
| TasksView.TasksPage.FetchTasks | src/pages/TasksPage.jsx:38-48 | exactly one `GET /tasks` with the filter query; the list is replaced on success and the error set on failure; loading ends |
| TasksView.TasksPage.Mount | src/pages/TasksPage.jsx:50-64 | the projects and members requests, then the task fetch; a failed project or member request leaves that list unchanged |
| TasksView.TasksPage.SetFilters | src/pages/TasksPage.jsx:64 | the fetch effect re-runs, with the new query, exactly when a filter changed |
| TasksView.TasksPage.ClearFilters | src/pages/TasksPage.jsx:137-138 | all filters become empty; an unfiltered refetch follows exactly when a filter had been set, storing the list or the load error and ending loading; with no filter set nothing else changes |
| TasksView.TasksPage.EditForm | src/pages/TasksPage.jsx:212 | an input's `onChange` replaces the form |
| TasksView.TasksPage.SetShowModal | src/pages/TasksPage.jsx:119 | the modal's open and close controls |
| TasksView.TasksPage.HandleCreate | src/pages/TasksPage.jsx:66-83 | a blank title or missing project sends nothing and changes nothing; otherwise one POST of the normalised form. Success resets the form, closes the modal and refetches once; failure keeps the form and toasts the server's message or the fallback |
| TasksView.TasksPage.Submit | src/pages/TasksPage.jsx:69-83 | after the guard: one POST of the normalised form; success resets the form, closes the modal, toasts and refetches once; failure keeps the form and toasts the message or the fallback; submitting ends |
| TasksView.TasksPage.HandleStatusChange | src/pages/TasksPage.jsx:85-94 | one PATCH with the new status; only on success is each task with that id given the new status and a recomputed overdue flag, the others kept; each outcome has its own toast |
| TasksView.TasksPage.HandleDelete | src/pages/TasksPage.jsx:96-103 | nothing without confirmation; otherwise one DELETE, and only on success are exactly the tasks with that id removed; each outcome has its own toast |
| TasksView.TasksPage.Columns | src/pages/TasksPage.jsx:105-108 | the board has one column per stage, holding that stage's tasks in list order |
| ProjectDetailView.ProjectDetailPage.constructor | src/pages/ProjectDetailPage.jsx:16-31 | the page for route id `id` before its first load: no project, empty lists, loading, no modal, the blank form |
| ProjectDetailView.ProjectDetailPage.FetchAll | src/pages/ProjectDetailPage.jsx:38-53 | the three requests go out together; all three results are stored only when all succeed, otherwise nothing is stored and the page redirects to `/projects`; loading ends |
| ProjectDetailView.ProjectDetailPage.Back | src/pages/ProjectDetailPage.jsx:172 | the back button navigates to `/projects` |
| ProjectDetailView.ProjectDetailPage.EditForm | src/pages/ProjectDetailPage.jsx:128 | an input's `onChange` replaces the form |
| ProjectDetailView.ProjectDetailPage.OpenAdd | src/pages/ProjectDetailPage.jsx:190 | the add button opens the add modal |
| ProjectDetailView.ProjectDetailPage.CloseModal | src/pages/ProjectDetailPage.jsx:119 | cancel, close or an overlay click closes both modals and resets the form |
| ProjectDetailView.ProjectDetailPage.OpenEdit | src/pages/ProjectDetailPage.jsx:85-95 | the edit modal opens on the task, with the form filled from it |
| ProjectDetailView.ProjectDetailPage.HandleAddTask | src/pages/ProjectDetailPage.jsx:59-70 | one POST with the route's project id, with no client-side guard. Success closes the modal, resets the form and reloads the project, tasks and members (all three, or none and a redirect); failure keeps the form and toasts the message or "Failed" |
| ProjectDetailView.ProjectDetailPage.HandleEditTask | src/pages/ProjectDetailPage.jsx:72-83 | one PATCH of the task being edited. Success closes the modal, resets the form and reloads the project, tasks and members (all three, or none and a redirect); failure keeps the modal and form and toasts "Failed to update" |
| ProjectDetailView.ProjectDetailPage.HandleStatusChange | src/pages/ProjectDetailPage.jsx:97-101 | one PATCH; only once it resolves is the status of each task with that id replaced, everything else kept; a rejected PATCH changes nothing |
| ProjectDetailView.ProjectDetailPage.HandleDelete | src/pages/ProjectDetailPage.jsx:103-108 | nothing without confirmation; otherwise one DELETE, and once it resolves exactly the tasks with that id are removed |
| ProjectDetailView.ProjectDetailPage.Board | src/pages/ProjectDetailPage.jsx:195-208 | one column per stage, holding the cards of that stage's tasks in list order, each with its overdue flag at render time |
| ProjectDetailView.DoneCardNotOverdue | src/pages/ProjectDetailPage.jsx:206 | after a change to Done, the task's card is not flagged overdue |
| ProjectDetailView.StatusChangeMovesTask | src/pages/ProjectDetailPage.jsx:97-113 | after a status change, a task with that id is in the new status's column and in no other |
| DashboardView.Loaded | src/pages/DashboardPage.jsx:12-24 | the load keeps the payload on success and sets "Failed to load dashboard" on failure; loading ends either way |
| DashboardView.CountOf | src/pages/DashboardPage.jsx:30 | `m[k] \|\| 0`: the stored count, or 0 for an absent key |
| DashboardView.Counts | src/pages/DashboardPage.jsx:30 | the counts of the keys, in order |
| DashboardView.MaxWithFloor | src/pages/DashboardPage.jsx:30 | `Math.max(...xs, floor)`: at least the floor and every element, and equal to one of them; once some element reaches the floor, equal to an element |
| DashboardView.MaxCount | src/pages/DashboardPage.jsx:30 | the stage scale is at least 1 and bounds every stage count; once some count is at least 1, it is the largest count |
| DashboardView.MaxPrio | src/pages/DashboardPage.jsx:32 | the same for the High, Medium and Low counts |
| DashboardView.BarsOf | src/pages/DashboardPage.jsx:82-93 | one bar per key, in order, with the key's count and the common scale |
| DashboardView.StageBars | src/pages/DashboardPage.jsx:82-93 | one bar per stage, in stage order, with the stage's count; every bar fits within the chart |
| DashboardView.PriorityBars | src/pages/DashboardPage.jsx:101-115 | High, Medium, Low bars with their counts; every bar fits within the chart |
| DashboardView.FitsWidth | src/pages/DashboardPage.jsx:89 | a fitting bar's width is between 0% and 100%, and exactly 100% for the largest count |
| DashboardView.RecentView | src/pages/DashboardPage.jsx:144-152 | the empty state exactly when there are no recent tasks; otherwise one card per task, in order, with its overdue flag |
| DashboardView.Greeting | src/pages/DashboardPage.jsx:41 | no greeting without a user; otherwise a space-free prefix of the name, ending where the name's first space is, and the whole name when it has no space |
| DashboardView.SplitFirstPrefix | src/pages/DashboardPage.jsx:41 | the first piece of `split(' ')` is a prefix of the string, followed by a space when the string has one, and the whole string when it has none |
| DashboardView.Render | src/pages/DashboardPage.jsx:26-27 | the spinner while loading, then the error if there is one, and otherwise exactly the two charts and the recent tasks of the payload |
| DashboardView.LoadedRenders | src/pages/DashboardPage.jsx:12-27 | the state after the load can always be rendered: as the overview after a success, as the error text after a failure |
| TeamView.CountStep | src/pages/TeamPage.jsx:24-30 | one more task adds one to the total of exactly its truthy assignee id, and one to the done count when it is Done |
| TeamView.EnrolStep | src/pages/TeamPage.jsx:23 | one more member gives its id a `{0, 0}` entry |
| TeamView.CreditEntry | src/pages/TeamPage.jsx:24-30 | crediting a task to the counts of a list gives each member the counts of the longer list |
| TeamView.CreditStep | src/pages/TeamPage.jsx:24-30 | crediting one more task to the workload of a list gives the workload of the longer list |
| TeamView.CreditTask | src/pages/TeamPage.jsx:25-29 | the body of the task loop computes the credit of one task |
| TeamView.EnrolMembers | src/pages/TeamPage.jsx:23 | the member loop, with its invariant, gives every member id a `{0, 0}` entry and no other key: the workload of no tasks |
| TeamView.CreditTasks | src/pages/TeamPage.jsx:24-30 | the task loop, with its invariant, turns the enrolled entries into the workload of the whole task list |
| TeamView.CountWorkload | src/pages/TeamPage.jsx:22-30 | the two `forEach` loops compute exactly the workload: each member id's number of assigned tasks and the Done ones among them |
| TeamView.WorkloadBounds | src/pages/TeamPage.jsx:22-30 | every entry has done ≤ total, and a positive total only for an id some task is assigned to |
| TeamView.TotalsAddUp | src/pages/TeamPage.jsx:22-30 | over distinct member ids, the totals add up to the number of tasks assigned to one of them: nothing is counted twice or lost |
| TeamView.CountsOf | src/pages/TeamPage.jsx:47 | `taskCounts[id] \|\| { total: 0, done: 0 }` |
| TeamView.Pct | src/pages/TeamPage.jsx:48 | 0 for no tasks, else `done / total * 100` rounded half up (the integer bracket stated exactly); at most 100 when done ≤ total |
| TeamView.PctExtremes | src/pages/TeamPage.jsx:48 | no task Done gives 0, all Done gives 100, and exactly half Done gives 50 |
| TeamView.WithRole | src/pages/TeamPage.jsx:43-44 | `admins` (role "Admin") and `regular` (role "Member"): the section of a role holds exactly the members with that role, each as often as listed |
| TeamView.WithRoleOrder | src/pages/TeamPage.jsx:43-44 | a section keeps list order: the section of a concatenation is the concatenation of sections, and one member is kept exactly when its role matches |
| TeamView.RoleSections | src/pages/TeamPage.jsx:43-44 | no member is in both sections, and each section keeps list order |
| TeamView.Upper | src/pages/TeamPage.jsx:49 | `toUpperCase` character by character, same length |
| TeamView.Heads | src/pages/TeamPage.jsx:49 | `map(n => n[0]).join('')` has at most one character per word |
| TeamView.HeadsOfWords | src/pages/TeamPage.jsx:49 | for non-empty words, exactly the first character of each word, in order |
| TeamView.HeadsSkipEmpty | src/pages/TeamPage.jsx:49 | for any spacing, the heads are the first characters of the non-empty pieces, in order: the empty pieces of doubled, leading or trailing spaces give `undefined`, which `join` drops |
| TeamView.Initials | src/pages/TeamPage.jsx:49 | the first two of the upper-cased word heads, or fewer when there are fewer |
| TeamView.InitialsOfWords | src/pages/TeamPage.jsx:49 | a name of non-empty words joined by single spaces has as initials the upper-cased first letters of its first two words |
| TeamView.TeamPage.constructor | src/pages/TeamPage.jsx:8-10 | no members, no counts, loading |
| TeamView.TeamPage.FetchData | src/pages/TeamPage.jsx:12-39 | members and tasks are requested together; members and counts are replaced by the list and its workload only when both arrive; a failure is ignored; loading ends; done never exceeds total |
| TeamView.TeamPage.Card | src/pages/TeamPage.jsx:46-49 | a member card shows the member's initials, its counts (zero without an entry) and its percentage, which is at most 100 |
| TeamView.TeamPage.Sections | src/pages/TeamPage.jsx:43-44 | the admin section holds exactly the Admin members and the member section exactly the Member members, each as often as listed; no member is in both |
| ProjectsView.CanCreate | src/pages/ProjectsPage.jsx:36 | the create guard passes only with a non-empty name |
| ProjectsView.CanCreateIff | src/pages/ProjectsPage.jsx:36 | the guard passes exactly when the name has a character besides white space |
| ProjectsView.IsAdmin | src/pages/ProjectsPage.jsx:9 | `user?.role === 'Admin'`: a user is signed in and has role Admin |
| ProjectsView.CardControls | src/pages/ProjectsPage.jsx:85-93 | every card opens its project, an admin also gets a delete button for it, and there is no create button |
| ProjectsView.Controls | src/pages/ProjectsPage.jsx:71-93 | the create button exactly for an admin, the delete buttons exactly for an admin and the listed projects, the cards for everyone |
| ProjectsView.MemberSeesOnlyCards | src/pages/ProjectsPage.jsx:71-93 | a non-admin is offered nothing but opening a project |
| ProjectsView.ProjectsPage.constructor | src/pages/ProjectsPage.jsx:11-17 | no projects, loading, no modal, blank form, no error or toast |
| ProjectsView.ProjectsPage.FetchProjects | src/pages/ProjectsPage.jsx:21-30 | one `GET /projects`; the list is replaced on success and the error set on failure; loading ends |
| ProjectsView.ProjectsPage.OpenModal | src/pages/ProjectsPage.jsx:72 | the create button, offered only to an admin, opens the modal |
| ProjectsView.ProjectsPage.CloseModal | src/pages/ProjectsPage.jsx:116 | the overlay and close button close the modal |
| ProjectsView.ProjectsPage.EditForm | src/pages/ProjectsPage.jsx:128 | an input's `onChange` replaces the form |
| ProjectsView.ProjectsPage.Open | src/pages/ProjectsPage.jsx:86 | a card click navigates to that project's page |
| ProjectsView.ProjectsPage.HandleCreate | src/pages/ProjectsPage.jsx:34-49 | a blank name sends nothing and changes nothing; otherwise one POST of the form. Success resets the form, closes the modal and refetches once; failure sets the server's message or the fallback as the error |
| ProjectsView.ProjectsPage.Submit | src/pages/ProjectsPage.jsx:37-48 | after the guard: one POST of the form; success resets the form, closes the modal, toasts and refetches once; failure sets the server's message or the fallback as the error; submitting ends |
| ProjectsView.ProjectsPage.HandleDelete | src/pages/ProjectsPage.jsx:51-60 | nothing without confirmation; otherwise one DELETE, then on success a refetch (nothing is removed locally), and on failure the error |
| ProjectsView.ProjectsPage.Offered | src/pages/ProjectsPage.jsx:71-93 | the create and delete controls on screen appear exactly for an admin |
| ProjectsView.CreateErrorChoice | src/pages/ProjectsPage.jsx:45 | the create error is the server's message when non-empty, otherwise "Failed to create project" |
| Json.HexDigit | src/context/AuthContext.jsx:16 | a digit whose hexadecimal value is `n` |
| Json.HexValue | src/context/AuthContext.jsx:9 | a hexadecimal digit's value is below 16 |
| Json.EscapeChar | src/context/AuthContext.jsx:16 | an escaped character is non-empty and either starts with a backslash or is the character itself, which is then neither a quote nor a control character |
| Json.ReadUnicodeEscape | src/context/AuthContext.jsx:9 | reading the `\u00xx` escape of a control character gives the character back |
| Json.ReadShortEscape | src/context/AuthContext.jsx:9 | reading a two-character escape such as `\n` gives its character back |
| Json.ReadEscapedChar | src/context/AuthContext.jsx:9 | reading the escape of a character gives the character back |
| Json.ReadCharsEscaped | src/context/AuthContext.jsx:9 | reading an escaped text up to its closing quote gives the text and what follows |
| Json.ReadQuoted | src/context/AuthContext.jsx:9 | a string literal reads back as its text |
| Json.Stringify | src/context/AuthContext.jsx:16 | `JSON.stringify` of a string-member object starts with `{` |
| Json.ReadMemberEncoded | src/context/AuthContext.jsx:9 | a written member reads back as its value |
| Json.DecodeFields | src/context/AuthContext.jsx:9 | decoding yields one value per expected key |
| Json.DecodeEncoded | src/context/AuthContext.jsx:9 | decoding encoded members gives the values and the text after them |
| Json.Parse | src/context/AuthContext.jsx:9 | a successful parse yields one value per expected key |
| Json.ParseStringify | src/context/AuthContext.jsx:9 | parsing what stringify wrote gives the values back |
| Session.Serialize | src/context/AuthContext.jsx:16 | the stored user text is truthy and is not `null` |
| Session.Deserialize | src/context/AuthContext.jsx:9 | a user read from a text is the one whose fields the text parses to |
| Session.DeserializeSerialize | src/context/AuthContext.jsx:9 | a stored user reads back as the same user |
| Session.StoredUser | src/context/AuthContext.jsx:7-10 | the `user` key gives nobody exactly when it is missing, empty or `null`; otherwise the user it parses to when it parses, and an unreadable text exactly when it does not |
| Session.InitialUser | src/context/AuthContext.jsx:7-10 | the provider starts with nobody exactly when the `user` key is missing, empty or `null`, and otherwise with the user the stored text parses to |
| Session.SignedInStorage | src/context/AuthContext.jsx:15-16 | after a sign-in, `token` holds the token and `user` the serialised user; every other key is unchanged |
| Session.SignedOutStorage | src/context/AuthContext.jsx:38-39 | after a logout, exactly `token` and `user` are gone and every other key is unchanged |
| Session.RestoreAfterSignIn | src/context/AuthContext.jsx:7-16 | a provider started after a sign-in restores the signed-in user |
| Session.RestoreAfterSignOut | src/context/AuthContext.jsx:37-41 | a provider started after a logout has nobody signed in |
| Session.SessionWritesOverwrite | src/context/AuthContext.jsx:13-41 | a second sign-in replaces the first, and a logout after a sign-in leaves the storage as before it, less the two keys |
| Session.AuthProvider.constructor | src/context/AuthContext.jsx:7-10 | a new provider starts with the user restored from storage |
| Session.AuthProvider.Login | src/context/AuthContext.jsx:13-19 | one `POST /auth/login`; on success both keys are written and the user set; the response is passed on; a failure writes nothing |
| Session.AuthProvider.Register | src/context/AuthContext.jsx:21-27 | the same for `POST /auth/register` with the profile |
| Session.AuthProvider.JoinOrg | src/context/AuthContext.jsx:29-35 | the same for `POST /org/join` with the profile |
| Session.AuthProvider.Logout | src/context/AuthContext.jsx:37-41 | both keys removed, the user cleared, no request |

## Left out

- Rendering, styling, icons and colours are not modelled. Only the facts the markup derives from state are: columns, cards, bars, controls and sections.
- The three-second toast timers are not modelled. A toast is the last one shown.
- Concurrency is not modelled. Each handler runs as one atomic sequence, and a `Promise.all` is one step with all the responses as inputs. Interleaved or stale responses are not covered.
- Dates are integer timestamps (`DueDate.time`), and the current time is a parameter; `new Date` parsing and time zones are left out. `toLocaleDateString` is left out too.
- DashboardView.FitsWidth: the bar width is stated in integer percent. The float division of the source is not modelled.
- TeamView.Pct: `Math.round` on the float `done / total * 100` is modelled as exact rational rounding, half up. Floating-point error near a half is not modelled.
- TeamView.Upper: `toUpperCase` is modelled for ASCII letters only.
- TeamView.Heads: `n[0]` and `slice(0, 2)` work on UTF-16 code units, while a Dafny `char` is a Unicode scalar value. For a name starting with a character outside the Basic Multilingual Plane (an emoji, say), the source takes a lone surrogate and the model the whole character.
- Json: only the JSON the session store writes is modelled. That is an object whose members are all strings, in the fixed order `_id`, `name`, `email`, `role`, `orgName`, `token`. Other members the server may send, numbers and nesting are not covered, and neither are surrogate pairs in `\u` escapes.
- Session.AuthProvider.constructor requires the stored user text to be absent, empty, `null` or in the form the provider writes. Other texts are not modelled: text that is not JSON makes `JSON.parse` throw, and other JSON (white space, reordered or extra members, a string or a number) gives whatever it parses to.
- The `loading` flag of the session provider is never set by the source, so it is not modelled.
- TeamView.TotalsAddUp requires distinct member ids. With duplicates, the single entry per id is still right, but a sum over the listed ids would count it twice.
- DashboardView.Render requires a state that is loading, has an error or has a payload, because the page reads the payload unconditionally after its two checks.
- Browser form validation (`required` inputs) is not modelled. The project page's add form has no other guard, and the model posts whatever the form holds.
- Server-computed fields are opaque inputs: completion percentages, totals and the task list's `isOverdue`.
- Object keys that collide with `Object.prototype` members (`counts["constructor"]`) are not modelled.
- The extra `GET /projects` and `GET /org/members` in the task board's mount effect have no error handling in the source. A failure leaves the list unchanged.
- The navigation bar, the router and the login and register pages are not part of this model.
