/**
 * The scenarios of the backend's API tests, played directly against the store:
 * what each test observes follows from the contracts of `Database` alone.
 */
module Scenarios {
  import opened Wrappers
  import opened Schemas
  import Database

  /** On a fresh store the first project gets id 1 and is the only one listed. */
  method CreateAndListProjects() returns (project: Project, listed: seq<Project>)
    ensures project.id == 1 && project.name == "Test Project"
    ensures listed == [project]
  {
    var db := new Database.Database();
    project := db.CreateProject("Test Project");
    listed := db.ListProjects();
  }

  /** Two tasks of one project: both are listed, and each status filter finds just one. */
  method CreateTasksAndFilter() returns (task1: Task, task2: Task, all: seq<Task>, todo: seq<Task>, done: seq<Task>)
    ensures task1.id == 1 && task2.id == 2
    ensures all == [task1, task2]
    ensures todo == [task1] && done == [task2]
  {
    var db := new Database.Database();
    var project := db.CreateProject("My Project");
    task1 := db.CreateTask(project.id, TaskCreate("Task 1", None, Todo, High));
    task2 := db.CreateTask(project.id, TaskCreate("Task 2", None, Done, Med));
    assert db.AllTasks() == [] + [task1] + [task2];
    ListsOfTwo(task1, task2, project.id);
    all := db.ListTasks(project.id, None);
    todo := db.ListTasks(project.id, Some(Todo));
    done := db.ListTasks(project.id, Some(Done));
  }

  /** The listings of two tasks of project `projectId`, one Todo and one Done. */
  lemma ListsOfTwo(task1: Task, task2: Task, projectId: int)
    requires task1.projectId == projectId == task2.projectId
    requires task1.status == Todo && task2.status == Done
    ensures Database.Select([] + [task1] + [task2], projectId, None) == [task1, task2]
    ensures Database.Select([] + [task1] + [task2], projectId, Some(Todo)) == [task1]
    ensures Database.Select([] + [task1] + [task2], projectId, Some(Done)) == [task2]
  {
    var statuses := [None, Some(Todo), Some(Done)];
    forall s | s in statuses
      ensures Database.Select([] + [task1] + [task2], projectId, s)
           == Database.Select([], projectId, s)
            + (if Database.Matches(task1, projectId, s) then [task1] else [])
            + (if Database.Matches(task2, projectId, s) then [task2] else [])
    {
      Database.SelectAppend([], task1, projectId, s);
      Database.SelectAppend([] + [task1], task2, projectId, s);
    }
    assert None in statuses && Some(Todo) in statuses && Some(Done) in statuses;
  }

  /** Updating title, status and priority overwrites them and keeps the id and the project. */
  method UpdateTaskFields() returns (original: Task, updated: Option<Task>)
    ensures updated.Some?
    ensures updated.value.title == "Updated Title"
    ensures updated.value.status == InProgress && updated.value.priority == High
    ensures updated.value.id == original.id && updated.value.projectId == original.projectId
    ensures updated.value.description == original.description
  {
    var db := new Database.Database();
    var project := db.CreateProject("Project");
    original := db.CreateTask(project.id, TaskCreate("Original Title", None, Todo, Low));
    updated := db.UpdateTask(original.id, TaskUpdate(Some("Updated Title"), None, Some(InProgress), Some(High)));
  }

  /** Updating an id that was never handed out reports `None`. */
  method UpdateNonexistentTask() returns (r: Option<Task>)
    ensures r == None
  {
    var db := new Database.Database();
    r := db.UpdateTask(999, TaskUpdate(Some("Updated"), None, None, None));
  }

  /**
   * The store itself accepts a task for a project it does not hold and lists
   * it; rejecting such a request is left to the HTTP layer.
   */
  method CreateTaskForUnknownProject() returns (created: Task, lookup: Option<Project>, listed: seq<Task>)
    ensures lookup == None
    ensures created.projectId == 999 && listed == [created]
  {
    var db := new Database.Database();
    created := db.CreateTask(999, TaskCreate("Task", None, Todo, Med));
    lookup := db.GetProject(999);
    listed := db.ListTasks(999, None);
  }

  /** A task moved to Done is found by the Done filter and no longer by the Todo filter. */
  method MoveToDoneAndFilter() returns (task: Task, done: seq<Task>, todo: seq<Task>)
    ensures task.status == Done
    ensures done == [task] && todo == []
  {
    var db := new Database.Database();
    var project := db.CreateProject("My Project");
    var created := db.CreateTask(project.id, TaskCreate("Write report", None, Todo, Med));
    var updated := db.UpdateTask(created.id, TaskUpdate(None, None, Some(Done), None));
    task := updated.value;
    done := db.ListTasks(project.id, Some(Done));
    todo := db.ListTasks(project.id, Some(Todo));
  }
}
