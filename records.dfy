/** The three record shapes of the dashboard's store and the seed dataset used
    when nothing has been persisted yet. */
module Records {
  import opened Collections

  /** A team member; `avatar` is derived from `name` whenever the member is saved. */
  datatype Member = Member(id: int, name: string, role: string, email: string, avatar: string)

  /** A project. Projects created through the form carry no `deadline`, only
      seed projects do, hence the Option. */
  datatype Project = Project(id: int, name: string, description: string, status: string, deadline: Option<string>)

  /** A task; `projectId` and `assigneeId` are soft references that may dangle. */
  datatype Task = Task(id: int, projectId: int, title: string, assigneeId: int, status: string, priority: string)

  /** The whole store: `appState` with its three insertion-ordered collections. */
  datatype StoreData = StoreData(teams: seq<Member>, projects: seq<Project>, tasks: seq<Task>)

  function MemberId(m: Member): int { m.id }
  function ProjectId(p: Project): int { p.id }
  function TaskId(t: Task): int { t.id }
  function TaskProjectId(t: Task): int { t.projectId }
  function MemberName(m: Member): string { m.name }
  function ProjectName(p: Project): string { p.name }

  const SeedTeams: seq<Member> := [
    Member(1, "Sarah Connor", "Frontend Lead", "sarah@devteam.io", "SC"),
    Member(2, "John Reese", "Backend Engineer", "john@devteam.io", "JR"),
    Member(3, "Harold Finch", "Product Manager", "harold@devteam.io", "HF"),
    Member(4, "Sameen Shaw", "DevOps Engineer", "shaw@devteam.io", "SS")
  ]

  const SeedProjects: seq<Project> := [
    Project(1, "Website Redesign", "Overhaul of the corporate website.", "Active", Some("2023-12-31")),
    Project(2, "Mobile App Beta", "First release of the iOS app.", "In Progress", Some("2023-11-15")),
    Project(3, "API Migration", "Migrate legacy API to GraphQL.", "Planning", Some("2024-02-20"))
  ]

  const SeedTasks: seq<Task> := [
    Task(1, 1, "Design Homepage Mockups", 1, "Completed", "High"),
    Task(2, 1, "Implement Responsive Nav", 1, "In Progress", "Medium"),
    Task(3, 2, "Setup CI/CD Pipeline", 4, "To Do", "High"),
    Task(4, 3, "Database Schema Design", 2, "In Progress", "High")
  ]

  /** `defaultData`. */
  const Seed: StoreData := StoreData(SeedTeams, SeedProjects, SeedTasks)
}
