# Smart Task Tracker: the in-memory project and task store

This project models the backend store of a task tracker. `Database` keeps
projects and tasks in two dictionaries keyed by id. Each dictionary has a counter
that hands out the next id, starting at 1. The store can create, get and list
projects. It can create and get tasks, list the tasks of a project with an optional
status filter, and partially update a task.

The model is imperative, like the store. `Database.Database` is a class with the
store's fields. Each dictionary becomes a `map<int, …>` plus a `seq<int>` that
records the order in which its keys were first inserted (a Python dictionary
lists its values in that order). Methods change the fields in place; queries
are functions that read them. `Valid()` is the object invariant:

- every record is stored under its own id;
- the order lists each key once, in strictly increasing order;
- every key lies between 1 and the counter.

The list comprehensions of `list_tasks` and the record built by `update_task`
are pure functions on values, with lemmas about them. The records (`Project`,
`Task`, `TaskCreate`, `TaskUpdate`) and the enumerations `Status`
(`Todo | In-Progress | Done`) and `Priority` (`Low | Med | High`) are datatypes in
module `Schemas`. Module `Scenarios` replays the backend API tests against the
store. What each test observes is proved from the store's contracts.

Files: `schemas.dfy` (modules `Wrappers`, `Schemas`), `database.dfy` (module
`Database`), `scenarios.dfy` (module `Scenarios`).

Where the design description and the code differ, the model follows the code:

- there is no project deletion, cascade delete or Smart Intake classifier;
- `create_task` does not check that the project exists;
- the store does no validation of names, titles or enumeration values.

## Model

| member | source | states |
|---|---|---|
| `Database.Database.constructor` | backend/app/database.py:9-13 | A new store is empty, both counters are 1, and every listing is empty. |
| `Database.Database.CreateProject` | backend/app/database.py:15-21 | The new project gets the old project counter as its id, which was not a key yet. The counter goes up by exactly 1. `GetProject` now finds the project and every other lookup is unchanged. The listing gains the project at its end. Tasks and the task counter are untouched. |
| `Database.Database.GetProject` | backend/app/database.py:23-25 | Returns a project exactly when the id is stored, and that project carries the id it was looked up by. |
| `Database.Database.ListProjects` | backend/app/database.py:27-29 | Holds exactly the stored projects, one per key, with strictly increasing ids, i.e. in creation order. |
| `Database.Database.CreateTask` | backend/app/database.py:31-44 | The new task copies title, description, status and priority from the input and takes the given project id. Its id is the old task counter, which was not a key yet, and the counter goes up by 1. No check is made that the project exists. The task is appended to the listing of all tasks and to every filtered listing it matches, and to no other. Projects are untouched. |
| `Database.Database.GetTask` | backend/app/database.py:46-48 | Returns a task exactly when the id is stored, and that task carries the id it was looked up by. |
| `Database.Database.AllTasks` | backend/app/database.py:52 | `tasks.values()`: exactly the stored tasks, once each, with strictly increasing ids. |
| `Database.Database.ListTasks` | backend/app/database.py:50-55 | A task is listed iff it is stored, belongs to the project, and has the requested status when one is given. The listing has strictly increasing ids, i.e. insertion order. |
| `Database.Database.ListTasksCharacterized` | backend/app/database.py:50-55 | `ListTasks` is the only id-ordered listing of the matching stored tasks. A status-filtered listing is a subsequence of the unfiltered one. |
| `Database.Database.UpdateTask` | backend/app/database.py:57-74 | An unknown id gives `None` and changes nothing. A known id stores and returns the task with the update applied. Every other task, the order, both counters and the projects are unchanged. The updated task keeps its position in the listing of all tasks and in its project's listing. |
| `Database.ValuesInOrder` | backend/app/database.py:29 | The listing of a table has one entry per key in the order, and entry i is the value stored under the i-th key. |
| `Database.ValuesInOrderMembers` | backend/app/database.py:29 | When the order lists every key, a value is in the listing iff it is stored under some key. |
| `Database.ValuesInOrderInsert` | backend/app/database.py:20 | Inserting a key that is not yet in the order appends its value at the end of the listing. |
| `Database.TableInsert` | backend/app/database.py:17-20 | A key taken from the counter is not yet stored. Storing it and bumping the counter keeps the table sound and appends the value to the listing. |
| `Database.OfProject` | backend/app/database.py:52 | A task is kept iff it is in the input and belongs to the project. The result is a subsequence of the input and keeps increasing ids increasing. |
| `Database.WithStatus` | backend/app/database.py:53-54 | A task is kept iff it is in the input and has the status. The result is a subsequence of the input and keeps increasing ids increasing. |
| `Database.Select` | backend/app/database.py:52-55 | Both filters combined: a task is kept iff it is in the input and matches the project and the optional status. Increasing ids stay increasing. |
| `Database.OfProjectAppend` | backend/app/database.py:52 | Filtering by project distributes over appending one task. |
| `Database.WithStatusAppend` | backend/app/database.py:54 | Filtering by status distributes over appending one task. |
| `Database.SelectAppend` | backend/app/database.py:43-55 | Appending a stored task appends it to exactly the listings it matches. |
| `Database.FilteredIsSubsequence` | backend/app/database.py:53-54 | The status-filtered listing is a subsequence of the unfiltered listing of the same project. |
| `Database.TaskListingUnique` | backend/app/database.py:52-55 | Two task listings with strictly increasing ids and the same members are equal. |
| `Database.SelectCharacterized` | backend/app/database.py:52-55 | Any id-ordered listing that holds exactly the matching tasks equals `Select`. |
| `Database.ApplyUpdate` | backend/app/database.py:62-72 | The updated task keeps `id` and `project_id`. Each field present in the update takes the update's value. Each absent field keeps its old value. |
| `Database.ApplyEmptyUpdate` | backend/app/database.py:63-72 | An update that sets no field leaves the task unchanged. |
| `Database.ApplyUpdateIdempotent` | backend/app/database.py:63-72 | Applying the same update twice equals applying it once. |
| `Database.ValuesInOrderReassign` | backend/app/database.py:73 | Reassigning an existing key leaves the listing the same except that one task is replaced in place. |
| `Database.OfProjectReplace` | backend/app/database.py:52 | Replacing a task by one of the same project commutes with filtering by project. |
| `Database.TaskTableReassign` | backend/app/database.py:73 | Reassigning a stored task with the same id keeps the table sound and every task under its own id. |
| `Database.TaskListingReassign` | backend/app/database.py:73 | Reassigning a stored task with the same id and project replaces it in place, both in the listing of all tasks and in every project's listing. |
| `Scenarios.CreateAndListProjects` | backend/tests/test_api.py:17-31 | On a fresh store the first project has id 1 and the given name. The listing is exactly that project. |
| `Scenarios.CreateTasksAndFilter` | backend/tests/test_api.py:33-61 | Two tasks of a project get ids 1 and 2 and are both listed. The Todo filter yields just the first and the Done filter just the second. |
| `Scenarios.ListsOfTwo` | backend/tests/test_api.py:50-61 | The unfiltered, Todo and Done listings of a Todo task followed by a Done task of the same project. |
| `Scenarios.UpdateTaskFields` | backend/tests/test_api.py:63-81 | The update overwrites title, status and priority. It keeps id, project and the unsupplied description. |
| `Scenarios.UpdateNonexistentTask` | backend/tests/test_api.py:98-105 | Updating an id that was never handed out returns `None`. |
| `Scenarios.CreateTaskForUnknownProject` | backend/app/database.py:31-44 | The store accepts and lists a task for a project it does not hold. The 404 the tests expect would have to come from the HTTP layer. |
| `Scenarios.MoveToDoneAndFilter` | backend/app/database.py:50-74 | After a task's status is updated to Done, the Done filter finds exactly it and the Todo filter finds nothing. |

## Left out

- The HTTP layer in backend/app/main.py is not modelled. Every API handler there raises HTTP 501, so the 404 responses the tests expect are not produced by the code shown.
- The global instance `db` is left out. Each scenario allocates its own store, which stands for the tests' reset of the fields between tests.
- The `schemas` module is not part of this model. Its pydantic models are plain records here, with no validation. Defaults (such as status Todo or priority Med when omitted) would live in `TaskCreate` and are not visible, so `TaskCreate` carries all four fields.
- `create_project` receives a `ProjectCreate`; the model passes its only field, the name.
- `TaskUpdate` marks an unset field as `None`. An explicitly null description is `Some(None)` and clears the description. Explicit nulls for title, status or priority would fail `TaskRead` validation, which is not modelled.
- The status filter is modelled as `Option<Status>`. In `list_tasks`, `if status:` is false only for `None`, since every status value is a non-empty string.
- Project deletion, the cascade delete of a project's tasks, and the Smart Intake classifier do not exist in the code. They are not modelled.
- The frontend (frontend/app/page.tsx, frontend/app/layout.tsx) is presentation and HTTP I/O. Only its `Status` and `Priority` literals are used, as the two enumerations.
- Concurrency and atomicity are not modelled. The store is a plain object used sequentially.
- Python integers are unbounded, and so is `int` here, so the counters cannot wrap around.
