/** The application state `appState` as an object owned by its caller: the three
    collections the save and delete handlers mutate in place, and the value
    written to browser storage under the key `devTeamData`. */
module AppState {
  import opened Collections
  import opened Records
  import opened Mutations

  /** The `type` argument of `deleteItem`: which collection of `appState`. */
  datatype Collection = Teams | Projects | Tasks

  class Store {
    var teams: seq<Member>
    var projects: seq<Project>
    var tasks: seq<Task>
    /** The value stored under `devTeamData`; None while nothing is stored. */
    var stored: Option<StoreData>

    /** The three collections as one value. */
    function Data(): StoreData
      reads this
    {
      StoreData(teams, projects, tasks)
    }

    /** `JSON.parse(localStorage.getItem('devTeamData')) || defaultData`: the
        stored value when there is one, the seed data otherwise. */
    constructor Load(persisted: Option<StoreData>)
      ensures stored == persisted
      ensures Data() == if persisted.Some? then persisted.value else Seed
      ensures persisted.None? ==>
        UniqueIds(teams, MemberId) && UniqueIds(projects, ProjectId) && UniqueIds(tasks, TaskId)
    {
      var d := if persisted.Some? then persisted.value else Seed;
      teams, projects, tasks := d.teams, d.projects, d.tasks;
      stored := persisted;
    }

    /** `saveState`: writes the whole store under the key. */
    method SaveState()
      modifies this`stored
      ensures stored == Some(Data())
    {
      stored := Some(Data());
    }

    /** `saveTeamMember(id)`: validate, then edit the member with that id or
        append a new one, then persist. */
    method SaveTeamMember(id: Option<int>, f: MemberForm) returns (outcome: SaveOutcome)
      modifies this
      ensures projects == old(projects) && tasks == old(tasks)
      ensures MemberFormError(f).Some? ==>
        outcome == Rejected(MemberRequired) && teams == old(teams) && stored == old(stored)
      ensures MemberFormError(f).None? && !IsEdit(id) ==>
        outcome == Created(NextId(old(teams), MemberId)) && teams == CreateMember(old(teams), f)
      ensures MemberFormError(f).None? && IsEdit(id) ==>
        match IndexOf(old(teams), MemberId, id.value)
        case Some(i) => outcome == Updated(i) && teams == UpdateMember(old(teams), i, f)
        case None => outcome == Unmatched && teams == old(teams)
      ensures !outcome.Rejected? ==> stored == Some(Data())
      ensures UniqueIds(old(teams), MemberId) ==> UniqueIds(teams, MemberId)
    {
      var error := MemberFormError(f);
      if error.Some? {
        return Rejected(error.value);
      }
      if IsEdit(id) {
        var index := IndexOf(teams, MemberId, id.value);
        match index {
          case Some(i) =>
            if UniqueIds(teams, MemberId) { MemberSavesKeepUnique(teams, i, f); }
            teams := UpdateMember(teams, i, f);
            outcome := Updated(i);
          case None =>
            outcome := Unmatched;
        }
      } else {
        var newId := NextId(teams, MemberId);
        if UniqueIds(teams, MemberId) { MemberSavesKeepUnique(teams, 0, f); }
        teams := teams + [NewMember(newId, f)];
        outcome := Created(newId);
      }
      SaveState();
    }

    /** `saveProject(id)`. */
    method SaveProject(id: Option<int>, f: ProjectForm) returns (outcome: SaveOutcome)
      modifies this
      ensures teams == old(teams) && tasks == old(tasks)
      ensures ProjectFormError(f).Some? ==>
        outcome == Rejected(ProjectRequired) && projects == old(projects) && stored == old(stored)
      ensures ProjectFormError(f).None? && !IsEdit(id) ==>
        outcome == Created(NextId(old(projects), ProjectId)) && projects == CreateProject(old(projects), f)
      ensures ProjectFormError(f).None? && IsEdit(id) ==>
        match IndexOf(old(projects), ProjectId, id.value)
        case Some(i) => outcome == Updated(i) && projects == UpdateProject(old(projects), i, f)
        case None => outcome == Unmatched && projects == old(projects)
      ensures !outcome.Rejected? ==> stored == Some(Data())
      ensures UniqueIds(old(projects), ProjectId) ==> UniqueIds(projects, ProjectId)
    {
      var error := ProjectFormError(f);
      if error.Some? {
        return Rejected(error.value);
      }
      if IsEdit(id) {
        var index := IndexOf(projects, ProjectId, id.value);
        match index {
          case Some(i) =>
            if UniqueIds(projects, ProjectId) { ProjectSavesKeepUnique(projects, i, f); }
            projects := UpdateProject(projects, i, f);
            outcome := Updated(i);
          case None =>
            outcome := Unmatched;
        }
      } else {
        var newId := NextId(projects, ProjectId);
        if UniqueIds(projects, ProjectId) { ProjectSavesKeepUnique(projects, 0, f); }
        projects := projects + [NewProject(newId, f)];
        outcome := Created(newId);
      }
      SaveState();
    }

    /** `saveTask(id)`. */
    method SaveTask(id: Option<int>, f: TaskForm) returns (outcome: SaveOutcome)
      modifies this
      ensures teams == old(teams) && projects == old(projects)
      ensures TaskFormError(f).Some? ==>
        outcome == Rejected(TaskRequired) && tasks == old(tasks) && stored == old(stored)
      ensures TaskFormError(f).None? && !IsEdit(id) ==>
        outcome == Created(NextId(old(tasks), TaskId)) && tasks == CreateTask(old(tasks), f)
      ensures TaskFormError(f).None? && IsEdit(id) ==>
        match IndexOf(old(tasks), TaskId, id.value)
        case Some(i) => outcome == Updated(i) && tasks == UpdateTask(old(tasks), i, f)
        case None => outcome == Unmatched && tasks == old(tasks)
      ensures !outcome.Rejected? ==> stored == Some(Data())
      ensures UniqueIds(old(tasks), TaskId) ==> UniqueIds(tasks, TaskId)
    {
      var error := TaskFormError(f);
      if error.Some? {
        return Rejected(error.value);
      }
      if IsEdit(id) {
        var index := IndexOf(tasks, TaskId, id.value);
        match index {
          case Some(i) =>
            if UniqueIds(tasks, TaskId) { TaskSavesKeepUnique(tasks, i, f); }
            tasks := UpdateTask(tasks, i, f);
            outcome := Updated(i);
          case None =>
            outcome := Unmatched;
        }
      } else {
        var newId := NextId(tasks, TaskId);
        if UniqueIds(tasks, TaskId) { TaskSavesKeepUnique(tasks, 0, f); }
        tasks := tasks + [NewTask(newId, f)];
        outcome := Created(newId);
      }
      SaveState();
    }

    /** `deleteItem(type, id)`: when the user confirms, filter the one
        collection by id and persist; the other two collections, and so every
        task that refers to a deleted project or member, are left as they are. */
    method DeleteItem(kind: Collection, id: int, confirmed: bool)
      modifies this
      ensures !confirmed ==> Data() == old(Data()) && stored == old(stored)
      ensures confirmed ==> teams == if kind == Teams then RemoveId(old(teams), MemberId, id) else old(teams)
      ensures confirmed ==> projects == if kind == Projects then RemoveId(old(projects), ProjectId, id) else old(projects)
      ensures confirmed ==> tasks == if kind == Tasks then RemoveId(old(tasks), TaskId, id) else old(tasks)
      ensures confirmed ==> stored == Some(Data())
      ensures UniqueIds(old(teams), MemberId) ==> UniqueIds(teams, MemberId)
      ensures UniqueIds(old(projects), ProjectId) ==> UniqueIds(projects, ProjectId)
      ensures UniqueIds(old(tasks), TaskId) ==> UniqueIds(tasks, TaskId)
    {
      if !confirmed {
        return;
      }
      match kind {
        case Teams =>
          if UniqueIds(teams, MemberId) { RemoveIdKeepsUnique(teams, MemberId, id); }
          teams := RemoveId(teams, MemberId, id);
        case Projects =>
          if UniqueIds(projects, ProjectId) { RemoveIdKeepsUnique(projects, ProjectId, id); }
          projects := RemoveId(projects, ProjectId, id);
        case Tasks =>
          if UniqueIds(tasks, TaskId) { RemoveIdKeepsUnique(tasks, TaskId, id); }
          tasks := RemoveId(tasks, TaskId, id);
      }
      SaveState();
    }
  }
}
