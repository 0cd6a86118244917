/** Walks through the dashboard as a user would, on a store loaded with no
    persisted data, so on the seed data. */
module Scenarios {
  import opened Collections
  import opened Records
  import opened Mutations
  import opened AppState
  import opened Views

  /** Deleting Sarah Connor (member 1) keeps that member's two tasks; the task list
      then shows them as unassigned, and the in-progress one is still in progress. */
  method DeleteSeedMember() returns (rows: seq<TaskRow>)
    ensures |rows| == 4
    ensures rows[0].assignee == "Unassigned" && rows[1].assignee == "Unassigned"
    ensures rows[1].title == "Implement Responsive Nav" && rows[1].status == "In Progress"
  {
    var store := new Store.Load(None);
    store.DeleteItem(Teams, 1, true);
    assert store.tasks == SeedTasks;
    DeletedMemberShowsUnassigned(Seed, 1);
    rows := TaskRows(store.Data());
  }

  /** A task form without a title is refused with its alert and the seed
      tasks stay as they were. */
  method RejectUntitledTask() returns (outcome: SaveOutcome, tasks: seq<Task>)
    ensures outcome == Rejected("Task Title is required")
    ensures tasks == SeedTasks
  {
    var store := new Store.Load(None);
    outcome := store.SaveTask(None, TaskForm("", 1, 1, "High", "To Do"));
    tasks := store.tasks;
  }

  /** A new project on top of the seed projects gets id 4 and no deadline,
      and the dashboard then counts four projects. */
  method CreateSeedProject() returns (outcome: SaveOutcome, created: Project, total: nat)
    ensures outcome == Created(4)
    ensures created == Project(4, "Docs Portal", "Public docs.", "Planning", None)
    ensures total == 4
  {
    var store := new Store.Load(None);
    // The next id is above 3 and one past some seed id, so it is 4.
    var next := NextId(SeedProjects, ProjectId);
    assert SeedProjects[2].id == 3 && next == 4;
    outcome := store.SaveProject(None, ProjectForm("Docs Portal", "Planning", "Public docs."));
    created := store.projects[3];
    total := Dashboard(store.Data()).totalProjects;
  }
}
