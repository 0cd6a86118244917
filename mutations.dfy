/** The rules `saveTeamMember`, `saveProject` and `saveTask` apply to a
    collection: validation of the form, id allocation for a new record, and the
    spread-merge that replaces an edited one. The store's methods are specified
    by these functions. */
module Mutations {
  import opened Collections
  import opened Records
  import opened Avatars

  /** The values read from the team-member form. */
  datatype MemberForm = MemberForm(name: string, role: string, email: string)

  /** The values read from the project form. */
  datatype ProjectForm = ProjectForm(name: string, status: string, description: string)

  /** The values read from the task form, the two selects already parsed to ints. */
  datatype TaskForm = TaskForm(title: string, projectId: int, assigneeId: int, priority: string, status: string)

  /** What a save did: rejected with the alert text, appended a record with a
      new id, replaced the record at an index, or matched no record (the
      source then writes to index -1, which is no element of the array). */
  datatype SaveOutcome = Rejected(message: string) | Created(id: int) | Updated(index: nat) | Unmatched

  const MemberRequired: string := "Name and Role are required"
  const ProjectRequired: string := "Project Name is required"
  const TaskRequired: string := "Task Title is required"

  /** `!name || !role`: only the empty string is missing. */
  function MemberFormError(f: MemberForm): (e: Option<string>)
    ensures e == None <==> f.name != [] && f.role != []
    ensures e != None ==> e == Some(MemberRequired)
  {
    if f.name == [] || f.role == [] then Some(MemberRequired) else None
  }

  /** `!name`. */
  function ProjectFormError(f: ProjectForm): (e: Option<string>)
    ensures e == None <==> f.name != []
    ensures e != None ==> e == Some(ProjectRequired)
  {
    if f.name == [] then Some(ProjectRequired) else None
  }

  /** `!title`. */
  function TaskFormError(f: TaskForm): (e: Option<string>)
    ensures e == None <==> f.title != []
    ensures e != None ==> e == Some(TaskRequired)
  {
    if f.title == [] then Some(TaskRequired) else None
  }

  /** `if (id)`: a save edits when it is given an id that is not 0; null and 0 are falsy. */
  predicate IsEdit(id: Option<int>)
  {
    id.Some? && id.value != 0
  }

  /** `Math.max(...s.map(x => x.id), 0) + 1`: larger than every id in use, and
      one above the largest of them (or 1 when none is positive). */
  function NextId<T>(s: seq<T>, key: T -> int): (n: int)
    ensures n >= 1
    ensures forall i :: 0 <= i < |s| ==> key(s[i]) < n
    ensures n == 1 || exists i :: 0 <= i < |s| && key(s[i]) == n - 1
  {
    MaxKey(s, key) + 1
  }

  /** The member a create pushes. */
  function NewMember(id: int, f: MemberForm): Member
  {
    Member(id, f.name, f.role, f.email, Avatar(f.name))
  }

  /** `{ ...m, name, role, email, avatar }`. */
  function MergeMember(m: Member, f: MemberForm): Member
  {
    m.(name := f.name, role := f.role, email := f.email, avatar := Avatar(f.name))
  }

  /** The project a create pushes: it has no deadline. */
  function NewProject(id: int, f: ProjectForm): Project
  {
    Project(id, f.name, f.description, f.status, None)
  }

  /** `{ ...p, name, status, description: desc }`. */
  function MergeProject(p: Project, f: ProjectForm): Project
  {
    p.(name := f.name, status := f.status, description := f.description)
  }

  /** The task a create pushes. */
  function NewTask(id: int, f: TaskForm): Task
  {
    Task(id, f.projectId, f.title, f.assigneeId, f.status, f.priority)
  }

  /** `{ ...t, title, projectId, assigneeId, priority, status }`. */
  function MergeTask(t: Task, f: TaskForm): Task
  {
    t.(projectId := f.projectId, title := f.title, assigneeId := f.assigneeId, status := f.status, priority := f.priority)
  }

  /** The team after creating a member: the old members untouched, then one
      more member carrying a fresh id, the form's fields and the avatar of its name. */
  function CreateMember(teams: seq<Member>, f: MemberForm): (r: seq<Member>)
    ensures |r| == |teams| + 1 && r[..|teams|] == teams
    ensures forall i :: 0 <= i < |teams| ==> teams[i].id < r[|teams|].id
    ensures r[|teams|].id == MaxKey(teams, MemberId) + 1
    ensures r[|teams|].name == f.name && r[|teams|].role == f.role && r[|teams|].email == f.email
    ensures r[|teams|].avatar == Avatar(f.name)
  {
    teams + [NewMember(NextId(teams, MemberId), f)]
  }

  /** The team after editing the member at index `i`: every other member
      untouched, the edited one keeps its id and takes the form's fields and a
      fresh avatar. */
  function UpdateMember(teams: seq<Member>, i: nat, f: MemberForm): (r: seq<Member>)
    requires i < |teams|
    ensures |r| == |teams|
    ensures forall j :: 0 <= j < |teams| && j != i ==> r[j] == teams[j]
    ensures r[i].id == teams[i].id
    ensures r[i].name == f.name && r[i].role == f.role && r[i].email == f.email
    ensures r[i].avatar == Avatar(f.name)
  {
    teams[i := MergeMember(teams[i], f)]
  }

  /** The projects after creating one: a fresh id, the form's fields, no deadline. */
  function CreateProject(projects: seq<Project>, f: ProjectForm): (r: seq<Project>)
    ensures |r| == |projects| + 1 && r[..|projects|] == projects
    ensures forall i :: 0 <= i < |projects| ==> projects[i].id < r[|projects|].id
    ensures r[|projects|].id == MaxKey(projects, ProjectId) + 1
    ensures r[|projects|].name == f.name && r[|projects|].status == f.status
    ensures r[|projects|].description == f.description && r[|projects|].deadline == None
  {
    projects + [NewProject(NextId(projects, ProjectId), f)]
  }

  /** The projects after editing the one at index `i`: it keeps its id and its
      deadline, which the form does not carry, and takes the form's fields. */
  function UpdateProject(projects: seq<Project>, i: nat, f: ProjectForm): (r: seq<Project>)
    requires i < |projects|
    ensures |r| == |projects|
    ensures forall j :: 0 <= j < |projects| && j != i ==> r[j] == projects[j]
    ensures r[i].id == projects[i].id && r[i].deadline == projects[i].deadline
    ensures r[i].name == f.name && r[i].status == f.status && r[i].description == f.description
  {
    projects[i := MergeProject(projects[i], f)]
  }

  /** The tasks after creating one: a fresh id and the form's fields. */
  function CreateTask(tasks: seq<Task>, f: TaskForm): (r: seq<Task>)
    ensures |r| == |tasks| + 1 && r[..|tasks|] == tasks
    ensures forall i :: 0 <= i < |tasks| ==> tasks[i].id < r[|tasks|].id
    ensures r[|tasks|].id == MaxKey(tasks, TaskId) + 1
    ensures r[|tasks|].title == f.title && r[|tasks|].projectId == f.projectId
    ensures r[|tasks|].assigneeId == f.assigneeId && r[|tasks|].priority == f.priority
    ensures r[|tasks|].status == f.status
  {
    tasks + [NewTask(NextId(tasks, TaskId), f)]
  }

  /** The tasks after editing the one at index `i`: it keeps only its id; every
      other field comes from the form. */
  function UpdateTask(tasks: seq<Task>, i: nat, f: TaskForm): (r: seq<Task>)
    requires i < |tasks|
    ensures |r| == |tasks|
    ensures forall j :: 0 <= j < |tasks| && j != i ==> r[j] == tasks[j]
    ensures r[i] == NewTask(tasks[i].id, f)
  {
    tasks[i := MergeTask(tasks[i], f)]
  }

  /** Appending a record whose id exceeds every id in use keeps ids unique. */
  lemma AppendFreshKeepsUnique<T>(s: seq<T>, x: T, key: T -> int)
    requires UniqueIds(s, key)
    requires forall i :: 0 <= i < |s| ==> key(s[i]) < key(x)
    ensures UniqueIds(s + [x], key)
  {
    var r := s + [x];
    forall i, j | 0 <= i < j < |r| ensures key(r[i]) != key(r[j]) {
      if j < |s| {
        assert r[i] == s[i] && r[j] == s[j];
      } else {
        assert r[i] == s[i] && r[j] == x;
      }
    }
  }

  /** Replacing a record by one with the same id keeps ids unique. */
  lemma ReplaceKeepsUnique<T>(s: seq<T>, i: nat, x: T, key: T -> int)
    requires i < |s| && UniqueIds(s, key) && key(x) == key(s[i])
    ensures UniqueIds(s[i := x], key)
  {
    var r := s[i := x];
    forall a, b | 0 <= a < b < |r| ensures key(r[a]) != key(r[b]) {
      assert key(r[a]) == key(s[a]) && key(r[b]) == key(s[b]);
    }
  }

  /** Creating and editing members keep member ids unique. */
  lemma MemberSavesKeepUnique(teams: seq<Member>, i: nat, f: MemberForm)
    requires UniqueIds(teams, MemberId)
    ensures UniqueIds(CreateMember(teams, f), MemberId)
    ensures i < |teams| ==> UniqueIds(UpdateMember(teams, i, f), MemberId)
  {
    AppendFreshKeepsUnique(teams, NewMember(NextId(teams, MemberId), f), MemberId);
    if i < |teams| {
      ReplaceKeepsUnique(teams, i, MergeMember(teams[i], f), MemberId);
    }
  }

  /** Creating and editing projects keep project ids unique. */
  lemma ProjectSavesKeepUnique(projects: seq<Project>, i: nat, f: ProjectForm)
    requires UniqueIds(projects, ProjectId)
    ensures UniqueIds(CreateProject(projects, f), ProjectId)
    ensures i < |projects| ==> UniqueIds(UpdateProject(projects, i, f), ProjectId)
  {
    AppendFreshKeepsUnique(projects, NewProject(NextId(projects, ProjectId), f), ProjectId);
    if i < |projects| {
      ReplaceKeepsUnique(projects, i, MergeProject(projects[i], f), ProjectId);
    }
  }

  /** Creating and editing tasks keep task ids unique. */
  lemma TaskSavesKeepUnique(tasks: seq<Task>, i: nat, f: TaskForm)
    requires UniqueIds(tasks, TaskId)
    ensures UniqueIds(CreateTask(tasks, f), TaskId)
    ensures i < |tasks| ==> UniqueIds(UpdateTask(tasks, i, f), TaskId)
  {
    AppendFreshKeepsUnique(tasks, NewTask(NextId(tasks, TaskId), f), TaskId);
    if i < |tasks| {
      ReplaceKeepsUnique(tasks, i, MergeTask(tasks[i], f), TaskId);
    }
  }

  /** Ids are reused, not retired: deleting the member just created and
      creating another hands out the same id again. */
  lemma {:induction false} DeletedIdIsReused(teams: seq<Member>, f: MemberForm, g: MemberForm)
    ensures var created := CreateMember(teams, f);
            var id := created[|teams|].id;
            var again := CreateMember(RemoveId(created, MemberId, id), g);
            |again| == |created| && again[|teams|].id == id
  {
    var created := CreateMember(teams, f);
    var id := created[|teams|].id;
    assert created == teams + [created[|teams|]];
    RemoveIdAppend(teams, [created[|teams|]], MemberId, id);
    RemoveAbsentId(teams, MemberId, id);
    assert RemoveId([created[|teams|]], MemberId, id) == [];
  }

  /** A name of two capitalised words has their two capitals as avatar, as
      every seed member has. */
  lemma TwoWordAvatar(a: string, b: string)
    requires a != [] && ' ' !in a && !IsLower(a[0])
    requires b != [] && ' ' !in b && !IsLower(b[0])
    ensures Avatar(a + " " + b) == [a[0], b[0]]
  {
    LeadingWord(a, b);
    LastWord(b);
    UpperKeeps([a[0], b[0]]);
  }
}
