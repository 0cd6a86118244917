/** What the four views display, as data rather than markup: the dashboard's
    counts and recent tasks, the project cards with their progress, the task
    rows and the member cards, plus the shared status and priority styling and
    the soft-reference lookups with their placeholder names. */
module Views {
  import opened Collections
  import opened Records

  const StatusCompleted: string := "status-completed"
  const StatusActive: string := "status-active"
  const StatusPending: string := "status-pending"

  /** `getStatusClass`: Active, Completed and Done style as completed, In
      Progress as active, any other status as pending. */
  function StatusClass(status: string): (c: string)
    ensures c == StatusCompleted || c == StatusActive || c == StatusPending
    ensures c == StatusCompleted <==> status == "Active" || status == "Completed" || status == "Done"
    ensures c == StatusActive <==> status == "In Progress"
  {
    if status in ["Active", "Completed", "Done"] then StatusCompleted
    else if status == "In Progress" then StatusActive
    else StatusPending
  }

  const Red: string := "#EF4444"
  const Amber: string := "#F59E0B"
  const Green: string := "#10B981"

  /** `getPriorityColor`: High is red, Medium amber, anything else green. */
  function PriorityColor(priority: string): (c: string)
    ensures c == Red || c == Amber || c == Green
    ensures c == Red <==> priority == "High"
    ensures c == Amber <==> priority == "Medium"
  {
    if priority == "High" then Red
    else if priority == "Medium" then Amber
    else Green
  }

  lemma StatusClassExamples()
    ensures StatusClass("Active") == StatusCompleted
    ensures StatusClass("Done") == StatusCompleted
    ensures StatusClass("In Progress") == StatusActive
    ensures StatusClass("To Do") == StatusPending
    ensures StatusClass("Planning") == StatusPending
    ensures StatusClass("Weird") == StatusPending
  {
  }

  /** The number of tasks whose status is exactly `Completed`. */
  function CompletedCount(tasks: seq<Task>): (n: nat)
    ensures n <= |tasks|
    ensures n == 0 <==> forall i :: 0 <= i < |tasks| ==> tasks[i].status != "Completed"
    ensures n == |tasks| <==> forall i :: 0 <= i < |tasks| ==> tasks[i].status == "Completed"
  {
    if tasks == [] then 0
    else (if tasks[0].status == "Completed" then 1 else 0) + CompletedCount(tasks[1..])
  }

  /** `tasks.filter(t => t.status !== 'Completed').length`. */
  function PendingCount(tasks: seq<Task>): (n: nat)
    ensures n <= |tasks|
    ensures n == |tasks| <==> forall i :: 0 <= i < |tasks| ==> tasks[i].status != "Completed"
  {
    if tasks == [] then 0
    else (if tasks[0].status != "Completed" then 1 else 0) + PendingCount(tasks[1..])
  }

  /** Counting completed tasks distributes over concatenation, so with the
      one-task cases fixed by the contract it counts every completed task once. */
  lemma {:induction false} CompletedCountAppend(a: seq<Task>, b: seq<Task>)
    ensures CompletedCount(a + b) == CompletedCount(a) + CompletedCount(b)
  {
    if a == [] {
      assert a + b == b;
    } else {
      assert (a + b)[0] == a[0];
      assert (a + b)[1..] == a[1..] + b;
      CompletedCountAppend(a[1..], b);
    }
  }

  /** Counting pending tasks distributes over concatenation. */
  lemma {:induction false} PendingCountAppend(a: seq<Task>, b: seq<Task>)
    ensures PendingCount(a + b) == PendingCount(a) + PendingCount(b)
  {
    if a == [] {
      assert a + b == b;
    } else {
      assert (a + b)[0] == a[0];
      assert (a + b)[1..] == a[1..] + b;
      PendingCountAppend(a[1..], b);
    }
  }

  /** Every task is either pending or completed, so the dashboard's pending
      count is what remains after the completed ones. */
  lemma {:induction false} PendingPlusCompleted(tasks: seq<Task>)
    ensures PendingCount(tasks) + CompletedCount(tasks) == |tasks|
  {
    if tasks != [] {
      PendingPlusCompleted(tasks[1..]);
    }
  }

  /** `Math.round((c / n) * 100)` in exact arithmetic, and 0 when there are no
      tasks: the integer nearest to 100·c/n, halves rounded up. */
  function RoundedPercent(c: nat, n: nat): (p: nat)
    ensures n == 0 ==> p == 0
    ensures n > 0 ==> 2 * n * p - n <= 200 * c < 2 * n * p + n
    ensures c <= n ==> p <= 100
  {
    if n == 0 then 0
    else
      var p := (200 * c + n) / (2 * n);
      DivBounds(200 * c + n, 2 * n);
      MulLess(2 * n, p, 101);
      p
  }

  /** Floor division brackets its dividend. */
  lemma DivBounds(a: nat, b: nat)
    requires b > 0
    ensures b * (a / b) <= a < b * (a / b) + b
  {
  }

  /** Multiplying by a positive factor keeps strict order, both ways. */
  lemma MulLess(k: nat, x: int, y: int)
    requires k > 0
    ensures k * x < k * y <==> x < y
  {
  }

  /** A project whose tasks are all completed shows 100%; below 200 tasks that
      is the only way to reach 100%. */
  lemma FullProgress(c: nat, n: nat)
    requires c <= n
    ensures n > 0 && c == n ==> RoundedPercent(c, n) == 100
    ensures 0 < n < 200 && RoundedPercent(c, n) == 100 ==> c == n
  {
    var p := RoundedPercent(c, n);
    if n > 0 {
      MulLess(2 * n, p, 101);
      MulLess(2 * n, 99, p);
    }
  }

  /** A project with no completed task shows 0%; up to 200 tasks that is the
      only way to show 0%. */
  lemma NoProgress(c: nat, n: nat)
    ensures n > 0 && c == 0 ==> RoundedPercent(c, n) == 0
    ensures 0 < n <= 200 && RoundedPercent(c, n) == 0 ==> c == 0
  {
    var p := RoundedPercent(c, n);
    if n > 0 {
      MulLess(2 * n, p, 1);
    }
  }

  /** Rounding makes a project with one open task out of 200 show 100%, and
      one completed task out of 201 show 0%. */
  lemma RoundingExamples()
    ensures RoundedPercent(1, 4) == 25
    ensures RoundedPercent(0, 0) == 0
    ensures RoundedPercent(199, 200) == 100
    ensures RoundedPercent(1, 201) == 0
  {
  }

  /** `tasks.filter(t => t.projectId === pid)`. */
  function TasksOf(tasks: seq<Task>, pid: int): seq<Task>
  {
    WithId(tasks, TaskProjectId, pid)
  }

  /** The progress bar of the project with id `pid`. */
  function Progress(tasks: seq<Task>, pid: int): (p: nat)
    ensures p <= 100
    ensures (forall i :: 0 <= i < |tasks| ==> tasks[i].projectId != pid) ==> p == 0
    ensures var mine := TasksOf(tasks, pid);
            var c, n := CompletedCount(mine), |mine|;
            n > 0 ==> 2 * n * p - n <= 200 * c < 2 * n * p + n
  {
    var mine := TasksOf(tasks, pid);
    if mine == [] then 0
    else
      assert mine[0] in mine;
      RoundedPercent(CompletedCount(mine), |mine|)
  }

  /** A project with tasks that are all completed shows 100%. */
  lemma ProgressFull(tasks: seq<Task>, pid: int)
    requires exists i :: 0 <= i < |tasks| && tasks[i].projectId == pid
    requires forall i :: 0 <= i < |tasks| && tasks[i].projectId == pid ==> tasks[i].status == "Completed"
    ensures Progress(tasks, pid) == 100
  {
    var mine := TasksOf(tasks, pid);
    var i :| 0 <= i < |tasks| && tasks[i].projectId == pid;
    assert tasks[i] in mine;
    forall j | 0 <= j < |mine| ensures mine[j].status == "Completed" {
      assert mine[j] in mine;
    }
    FullProgress(CompletedCount(mine), |mine|);
  }

  /** A project with fewer than 200 tasks that shows 100% has every one of its tasks completed. */
  lemma ProgressFullOnlyIfDone(tasks: seq<Task>, pid: int)
    requires |TasksOf(tasks, pid)| < 200 && Progress(tasks, pid) == 100
    ensures forall i :: 0 <= i < |tasks| && tasks[i].projectId == pid ==> tasks[i].status == "Completed"
  {
    var mine := TasksOf(tasks, pid);
    FullProgress(CompletedCount(mine), |mine|);
    forall i | 0 <= i < |tasks| && tasks[i].projectId == pid ensures tasks[i].status == "Completed" {
      assert tasks[i] in mine;
    }
  }

  /** A project with no completed task shows 0%; for a project with at most
      200 tasks, 0% means that none of its tasks is completed. */
  lemma ProgressNone(tasks: seq<Task>, pid: int)
    ensures (forall i :: 0 <= i < |tasks| && tasks[i].projectId == pid ==> tasks[i].status != "Completed") ==> Progress(tasks, pid) == 0
    ensures |TasksOf(tasks, pid)| <= 200 && Progress(tasks, pid) == 0 ==>
              forall i :: 0 <= i < |tasks| && tasks[i].projectId == pid ==> tasks[i].status != "Completed"
  {
    var mine := TasksOf(tasks, pid);
    NoProgress(CompletedCount(mine), |mine|);
    if forall i :: 0 <= i < |tasks| && tasks[i].projectId == pid ==> tasks[i].status != "Completed" {
      forall j | 0 <= j < |mine| ensures mine[j].status != "Completed" {
        assert mine[j] in mine;
      }
    }
    forall i | 0 <= i < |tasks| && tasks[i].projectId == pid ensures tasks[i] in mine {
    }
  }

  /** `s.find(x => key(x) == id)?.name || fallback`: the name of the first
      record with that id, or the fallback when there is none or its name is empty. */
  function LookupName<T>(s: seq<T>, key: T -> int, name: T -> string, id: int, fallback: string): (r: string)
    ensures (forall i :: 0 <= i < |s| ==> key(s[i]) != id) ==> r == fallback
    ensures forall i :: 0 <= i < |s| && key(s[i]) == id && (forall j :: 0 <= j < i ==> key(s[j]) != id) ==>
              r == if name(s[i]) == [] then fallback else name(s[i])
    ensures fallback != [] ==> r != []
  {
    match IndexOf(s, key, id)
    case None => fallback
    case Some(i) => if name(s[i]) == [] then fallback else name(s[i])
  }

  /** A lookup decided by the first record: its name, or the fallback. */
  lemma LookupHead<T>(s: seq<T>, key: T -> int, name: T -> string, id: int, fallback: string)
    requires s != [] && key(s[0]) == id
    ensures LookupName(s, key, name, id, fallback) == if name(s[0]) == [] then fallback else name(s[0])
  {
  }

  /** A first record with another id is passed over. */
  lemma LookupSkip<T>(s: seq<T>, key: T -> int, name: T -> string, id: int, fallback: string)
    requires s != [] && key(s[0]) != id
    ensures LookupName(s, key, name, id, fallback) == LookupName(s[1..], key, name, id, fallback)
  {
  }

  /** Deleting the records of one id leaves the lookup of any other id as it was. */
  lemma {:induction false} LookupAfterRemove<T>(s: seq<T>, key: T -> int, name: T -> string, del: int, id: int, fallback: string)
    requires id != del
    ensures LookupName(RemoveId(s, key, del), key, name, id, fallback) == LookupName(s, key, name, id, fallback)
  {
    if s != [] {
      var r := RemoveId(s, key, del);
      if key(s[0]) == del {
        assert r == RemoveId(s[1..], key, del);
        LookupSkip(s, key, name, id, fallback);
        LookupAfterRemove(s[1..], key, name, del, id, fallback);
      } else {
        assert r == [s[0]] + RemoveId(s[1..], key, del);
        if key(s[0]) == id {
          LookupHead(s, key, name, id, fallback);
          LookupHead(r, key, name, id, fallback);
        } else {
          assert r[1..] == RemoveId(s[1..], key, del);
          LookupSkip(s, key, name, id, fallback);
          LookupSkip(r, key, name, id, fallback);
          LookupAfterRemove(s[1..], key, name, del, id, fallback);
        }
      }
    }
  }

  /** The project cell of a task. */
  function ProjectLabel(projects: seq<Project>, pid: int): string
  {
    LookupName(projects, ProjectId, ProjectName, pid, "Unknown")
  }

  /** The assignee cell of a task. */
  function AssigneeLabel(teams: seq<Member>, aid: int): string
  {
    LookupName(teams, MemberId, MemberName, aid, "Unassigned")
  }

  datatype RecentRow = RecentRow(title: string, project: string, assignee: string, status: string, statusClass: string)

  datatype DashboardView = DashboardView(totalProjects: nat, pendingTasks: nat, teamSize: nat, recent: seq<RecentRow>)

  datatype ProjectCard = ProjectCard(id: int, name: string, status: string, statusClass: string, description: string, progress: nat)

  datatype TaskRow = TaskRow(id: int, title: string, project: string, priority: string, priorityColor: string,
                             assignee: string, status: string, statusClass: string)

  datatype MemberCard = MemberCard(id: int, avatar: string, name: string, role: string, email: string)

  function RecentRowOf(d: StoreData, t: Task): RecentRow
  {
    RecentRow(t.title, ProjectLabel(d.projects, t.projectId), AssigneeLabel(d.teams, t.assigneeId), t.status, StatusClass(t.status))
  }

  function Min(a: int, b: int): int { if a <= b then a else b }

  /** `renderDashboard`: the project count, the tasks not completed, the team
      size, and the first five tasks in stored order. */
  function Dashboard(d: StoreData): (v: DashboardView)
    ensures v.totalProjects == |d.projects| && v.teamSize == |d.teams|
    ensures v.pendingTasks + CompletedCount(d.tasks) == |d.tasks|
    ensures |v.recent| == Min(5, |d.tasks|)
    ensures forall i :: 0 <= i < |v.recent| ==> v.recent[i] == RecentRowOf(d, d.tasks[i])
  {
    PendingPlusCompleted(d.tasks);
    var first := d.tasks[..Min(5, |d.tasks|)];
    DashboardView(|d.projects|, PendingCount(d.tasks), |d.teams|,
                  seq(|first|, i requires 0 <= i < |first| => RecentRowOf(d, first[i])))
  }

  function ProjectCardOf(d: StoreData, p: Project): ProjectCard
  {
    ProjectCard(p.id, p.name, p.status, StatusClass(p.status), p.description, Progress(d.tasks, p.id))
  }

  /** `renderProjects`: one card per project, in order. */
  function ProjectCards(d: StoreData): (cards: seq<ProjectCard>)
    ensures |cards| == |d.projects|
    ensures forall i :: 0 <= i < |cards| ==> cards[i] == ProjectCardOf(d, d.projects[i])
    ensures forall i :: 0 <= i < |cards| ==>
              cards[i].id == d.projects[i].id && cards[i].progress == Progress(d.tasks, d.projects[i].id) && cards[i].progress <= 100
  {
    seq(|d.projects|, i requires 0 <= i < |d.projects| => ProjectCardOf(d, d.projects[i]))
  }

  function TaskRowOf(d: StoreData, t: Task): TaskRow
  {
    TaskRow(t.id, t.title, ProjectLabel(d.projects, t.projectId), t.priority, PriorityColor(t.priority),
            AssigneeLabel(d.teams, t.assigneeId), t.status, StatusClass(t.status))
  }

  /** `renderTasks`: one row per task, in order. */
  function TaskRows(d: StoreData): (rows: seq<TaskRow>)
    ensures |rows| == |d.tasks|
    ensures forall i :: 0 <= i < |rows| ==> rows[i] == TaskRowOf(d, d.tasks[i])
  {
    seq(|d.tasks|, i requires 0 <= i < |d.tasks| => TaskRowOf(d, d.tasks[i]))
  }

  /** `renderTeam`: one card per member, showing the stored avatar. */
  function MemberCards(d: StoreData): (cards: seq<MemberCard>)
    ensures |cards| == |d.teams|
    ensures forall i :: 0 <= i < |cards| ==> cards[i] == MemberCard(d.teams[i].id, d.teams[i].avatar, d.teams[i].name, d.teams[i].role, d.teams[i].email)
  {
    seq(|d.teams|, i requires 0 <= i < |d.teams| =>
      MemberCard(d.teams[i].id, d.teams[i].avatar, d.teams[i].name, d.teams[i].role, d.teams[i].email))
  }

  datatype Screen =
    | DashboardScreen(dashboard: DashboardView)
    | ProjectsScreen(cards: seq<ProjectCard>)
    | TasksScreen(rows: seq<TaskRow>)
    | TeamScreen(members: seq<MemberCard>)

  /** A rendered page: the page title it sets (None: the title is left as it
      was), whether the global add button shows, and the content. */
  datatype Page = Page(title: Option<string>, addButton: bool, screen: Screen)

  /** `renderView(viewName)` with `refreshGlobalAddButton`: an unknown view
      name shows the dashboard without setting a title, and still shows the add
      button, as every name but `dashboard` does. */
  function RenderView(viewName: string, d: StoreData): (page: Page)
    ensures page.addButton <==> viewName != "dashboard"
    ensures viewName == "dashboard" ==> page == Page(Some("Dashboard"), false, DashboardScreen(Dashboard(d)))
    ensures viewName == "projects" ==> page == Page(Some("Projects"), true, ProjectsScreen(ProjectCards(d)))
    ensures viewName == "tasks" ==> page == Page(Some("Tasks"), true, TasksScreen(TaskRows(d)))
    ensures viewName == "team" ==> page == Page(Some("Team Members"), true, TeamScreen(MemberCards(d)))
    ensures viewName != "projects" && viewName != "tasks" && viewName != "team" ==> page.screen == DashboardScreen(Dashboard(d))
    ensures page.title == None <==> viewName !in ["dashboard", "projects", "tasks", "team"]
  {
    var addButton := viewName != "dashboard";
    if viewName == "dashboard" then Page(Some("Dashboard"), addButton, DashboardScreen(Dashboard(d)))
    else if viewName == "projects" then Page(Some("Projects"), addButton, ProjectsScreen(ProjectCards(d)))
    else if viewName == "tasks" then Page(Some("Tasks"), addButton, TasksScreen(TaskRows(d)))
    else if viewName == "team" then Page(Some("Team Members"), addButton, TeamScreen(MemberCards(d)))
    else Page(None, addButton, DashboardScreen(Dashboard(d)))
  }

  /** Deleting a project leaves every task row as it was except the project
      cell, which for the tasks of the deleted project becomes `Unknown`. */
  lemma DeletedProjectShowsUnknown(d: StoreData, pid: int)
    ensures var d' := d.(projects := RemoveId(d.projects, ProjectId, pid));
            var before, after := TaskRows(d), TaskRows(d');
            |after| == |before| &&
            forall i :: 0 <= i < |after| ==>
              after[i] == before[i].(project := after[i].project) &&
              (d.tasks[i].projectId == pid ==> after[i].project == "Unknown") &&
              (d.tasks[i].projectId != pid ==> after[i] == before[i])
  {
    var d' := d.(projects := RemoveId(d.projects, ProjectId, pid));
    var rest := d'.projects;
    forall j | 0 <= j < |rest| ensures rest[j].id != pid {
      assert rest[j] in rest;
    }
    forall i | 0 <= i < |d.tasks| && d.tasks[i].projectId != pid
      ensures ProjectLabel(rest, d.tasks[i].projectId) == ProjectLabel(d.projects, d.tasks[i].projectId)
    {
      LookupAfterRemove(d.projects, ProjectId, ProjectName, pid, d.tasks[i].projectId, "Unknown");
    }
  }

  /** Deleting a member leaves every task row as it was except the assignee
      cell, which for the tasks of the deleted member becomes `Unassigned`. */
  lemma DeletedMemberShowsUnassigned(d: StoreData, aid: int)
    ensures var d' := d.(teams := RemoveId(d.teams, MemberId, aid));
            var before, after := TaskRows(d), TaskRows(d');
            |after| == |before| &&
            forall i :: 0 <= i < |after| ==>
              after[i] == before[i].(assignee := after[i].assignee) &&
              (d.tasks[i].assigneeId == aid ==> after[i].assignee == "Unassigned") &&
              (d.tasks[i].assigneeId != aid ==> after[i] == before[i])
  {
    var d' := d.(teams := RemoveId(d.teams, MemberId, aid));
    var rest := d'.teams;
    forall j | 0 <= j < |rest| ensures rest[j].id != aid {
      assert rest[j] in rest;
    }
    forall i | 0 <= i < |d.tasks| && d.tasks[i].assigneeId != aid
      ensures AssigneeLabel(rest, d.tasks[i].assigneeId) == AssigneeLabel(d.teams, d.tasks[i].assigneeId)
    {
      LookupAfterRemove(d.teams, MemberId, MemberName, aid, d.tasks[i].assigneeId, "Unassigned");
    }
  }

  /** The seed data's dashboard: three of the four tasks are not completed. */
  lemma SeedPending(tasks: seq<Task>)
    requires tasks == SeedTasks
    ensures PendingCount(tasks) == 3
  {
    assert tasks[0].status == "Completed";
    assert tasks[1].status != "Completed";
    assert tasks[2].status != "Completed";
    assert tasks[3].status != "Completed";
    assert tasks[3..][1..] == [];
  }

  /** In the seed data the first project has one of its two tasks completed
      and shows 50%; the second has one open task and shows 0%. */
  lemma SeedProgress(tasks: seq<Task>)
    requires tasks == SeedTasks
    ensures Progress(tasks, 1) == 50
    ensures Progress(tasks, 2) == 0
  {
    assert tasks[2..][1..][1..] == [];
    assert WithId(tasks[2..][1..], TaskProjectId, 1) == [];
    assert WithId(tasks[2..], TaskProjectId, 1) == [];
    assert TasksOf(tasks, 1) == [tasks[0], tasks[1]];
    assert CompletedCount([tasks[0], tasks[1]]) == 1;
    assert WithId(tasks[2..][1..], TaskProjectId, 2) == [];
    assert TasksOf(tasks, 2) == [tasks[2]];
  }
}
