/**
 * The in-memory store of projects and tasks. Each table is a dictionary keyed
 * by id; a Python dictionary remembers the order in which its keys were first
 * inserted, which is kept here as a separate sequence of keys.
 */
module Database {
  import opened Wrappers
  import opened Schemas

  // ---------------------------------------------------------------------------
  // Tables: a map plus the insertion order of its keys
  // ---------------------------------------------------------------------------

  /** The keys are listed in strictly increasing order. */
  ghost predicate Increasing(order: seq<int>) {
    forall i, j :: 0 <= i < j < |order| ==> order[i] < order[j]
  }

  /**
   * The bookkeeping of one table: its keys are exactly those of `order`,
   * listed without repetition in the order their counter handed them out,
   * and every key is a past value of `counter`, which starts at 1.
   */
  ghost predicate TableValid<V>(m: map<int, V>, order: seq<int>, counter: int) {
    && 1 <= counter
    && Increasing(order)
    && (forall i :: 0 <= i < |order| ==> order[i] in m)
    && (forall k :: k in m ==> k in order && 1 <= k < counter)
  }

  /** `list(d.values())` for a dictionary `m` whose keys were inserted in the order `order`. */
  function ValuesInOrder<V>(m: map<int, V>, order: seq<int>): (r: seq<V>)
    requires forall i :: 0 <= i < |order| ==> order[i] in m
    ensures |r| == |order|
    ensures forall i :: 0 <= i < |order| ==> r[i] == m[order[i]]
  {
    if order == [] then [] else [m[order[0]]] + ValuesInOrder(m, order[1..])
  }

  /** When `order` lists every key of `m`, the listing holds exactly the values of `m`. */
  lemma ValuesInOrderMembers<V>(m: map<int, V>, order: seq<int>)
    requires forall i :: 0 <= i < |order| ==> order[i] in m
    requires forall k :: k in m ==> k in order
    ensures forall v :: v in ValuesInOrder(m, order) <==> exists k :: k in m && m[k] == v
  {
    var r := ValuesInOrder(m, order);
    forall v | v in r ensures exists k :: k in m && m[k] == v {
      var i :| 0 <= i < |r| && r[i] == v;
      var k := order[i];
      assert k in m && m[k] == v;
    }
    forall v | exists k :: k in m && m[k] == v ensures v in r {
      var k :| k in m && m[k] == v;
      assert k in order;
      var i :| 0 <= i < |order| && order[i] == k;
      assert r[i] == v;
    }
  }

  /** Inserting a new key appends its value at the end of the listing. */
  lemma ValuesInOrderInsert<V>(m: map<int, V>, order: seq<int>, k: int, v: V)
    requires forall i :: 0 <= i < |order| ==> order[i] in m
    requires k !in order
    ensures ValuesInOrder(m[k := v], order + [k]) == ValuesInOrder(m, order) + [v]
  {
    var r, r' := ValuesInOrder(m, order), ValuesInOrder(m[k := v], order + [k]);
    forall i | 0 <= i < |r'| ensures r'[i] == (r + [v])[i] {
      if i < |order| {
        assert order[i] != k;
      }
    }
  }

  /** Storing under the counter's value adds a new key at the end of the order. */
  lemma TableInsert<V>(m: map<int, V>, order: seq<int>, counter: int, v: V)
    requires TableValid(m, order, counter)
    ensures counter !in m
    ensures TableValid(m[counter := v], order + [counter], counter + 1)
    ensures ValuesInOrder(m[counter := v], order + [counter]) == ValuesInOrder(m, order) + [v]
  {
    assert counter !in order by {
      forall i | 0 <= i < |order| ensures order[i] != counter {
        assert order[i] in m;
      }
    }
    ValuesInOrderInsert(m, order, counter, v);
  }

  /** Every project is stored under its own id. */
  ghost predicate ProjectIdsMatch(m: map<int, Project>) {
    forall k :: k in m ==> m[k].id == k
  }

  /** Every task is stored under its own id. */
  ghost predicate TaskIdsMatch(m: map<int, Task>) {
    forall k :: k in m ==> m[k].id == k
  }

  // ---------------------------------------------------------------------------
  // Listings of stored records
  // ---------------------------------------------------------------------------

  /** Project ids strictly increase along the listing, i.e. it is in creation order. */
  ghost predicate ProjectIdsIncreasing(ps: seq<Project>) {
    forall i, j :: 0 <= i < j < |ps| ==> ps[i].id < ps[j].id
  }

  /** Task ids strictly increase along the listing. */
  ghost predicate TaskIdsIncreasing(ts: seq<Task>) {
    forall i, j :: 0 <= i < j < |ts| ==> ts[i].id < ts[j].id
  }

  /** `a` can be obtained from `b` by deleting elements, keeping the rest in order. */
  ghost predicate Subsequence<T>(a: seq<T>, b: seq<T>)
    decreases |b|
  {
    a == [] || (b != [] && if a[0] == b[0] then Subsequence(a[1..], b[1..]) else Subsequence(a, b[1..]))
  }

  /** `[task for task in ts if task.project_id == projectId]`. */
  function OfProject(ts: seq<Task>, projectId: int): (r: seq<Task>)
    ensures forall t :: t in r <==> t in ts && t.projectId == projectId
    ensures TaskIdsIncreasing(ts) ==> TaskIdsIncreasing(r)
    ensures Subsequence(r, ts)
  {
    if ts == [] then []
    else if ts[0].projectId == projectId then [ts[0]] + OfProject(ts[1..], projectId)
    else OfProject(ts[1..], projectId)
  }

  /** `[task for task in ts if task.status == status]`. */
  function WithStatus(ts: seq<Task>, status: Status): (r: seq<Task>)
    ensures forall t :: t in r <==> t in ts && t.status == status
    ensures TaskIdsIncreasing(ts) ==> TaskIdsIncreasing(r)
    ensures Subsequence(r, ts)
  {
    if ts == [] then []
    else if ts[0].status == status then [ts[0]] + WithStatus(ts[1..], status)
    else WithStatus(ts[1..], status)
  }

  /** A task is listed for `projectId` under the optional status filter `status`. */
  predicate Matches(t: Task, projectId: int, status: Option<Status>) {
    t.projectId == projectId && (status.Some? ==> t.status == status.value)
  }

  /**
   * The two comprehensions of `list_tasks` over the stored tasks `ts`: first by
   * project, then, when a status is given, by status.
   */
  function Select(ts: seq<Task>, projectId: int, status: Option<Status>): (r: seq<Task>)
    ensures forall t :: t in r <==> t in ts && Matches(t, projectId, status)
    ensures TaskIdsIncreasing(ts) ==> TaskIdsIncreasing(r)
  {
    var tasks := OfProject(ts, projectId);
    if status.Some? then WithStatus(tasks, status.value) else tasks
  }

  /** Appending a task to the stored tasks appends it to every listing it matches. */
  lemma {:induction false} SelectAppend(ts: seq<Task>, t: Task, projectId: int, status: Option<Status>)
    ensures Select(ts + [t], projectId, status)
         == Select(ts, projectId, status) + (if Matches(t, projectId, status) then [t] else [])
  {
    OfProjectAppend(ts, t, projectId);
    var before := OfProject(ts, projectId);
    if status.Some? {
      if t.projectId == projectId {
        WithStatusAppend(before, t, status.value);
      } else {
        assert OfProject(ts + [t], projectId) == before;
      }
    }
  }

  lemma {:induction false} OfProjectAppend(ts: seq<Task>, t: Task, projectId: int)
    ensures OfProject(ts + [t], projectId)
         == OfProject(ts, projectId) + (if t.projectId == projectId then [t] else [])
  {
    if ts != [] {
      assert (ts + [t])[1..] == ts[1..] + [t];
      OfProjectAppend(ts[1..], t, projectId);
    }
  }

  lemma {:induction false} WithStatusAppend(ts: seq<Task>, t: Task, status: Status)
    ensures WithStatus(ts + [t], status)
         == WithStatus(ts, status) + (if t.status == status then [t] else [])
  {
    if ts != [] {
      assert (ts + [t])[1..] == ts[1..] + [t];
      WithStatusAppend(ts[1..], t, status);
    }
  }

  /** A status-filtered listing is the unfiltered one with some tasks left out. */
  lemma FilteredIsSubsequence(ts: seq<Task>, projectId: int, status: Status)
    ensures Subsequence(Select(ts, projectId, Some(status)), Select(ts, projectId, None))
  {
  }

  /**
   * A listing in increasing id order is determined by which tasks it holds:
   * two such listings with the same members are equal.
   */
  lemma {:induction false} TaskListingUnique(a: seq<Task>, b: seq<Task>)
    requires TaskIdsIncreasing(a) && TaskIdsIncreasing(b)
    requires forall t :: t in a <==> t in b
    ensures a == b
  {
    assert a != [] ==> a[0] in a;
    assert b != [] ==> b[0] in b;
    if a != [] && b != [] {
      var j :| 0 <= j < |b| && b[j] == a[0];
      var i :| 0 <= i < |a| && a[i] == b[0];
      assert a[0].id <= a[i].id == b[0].id <= b[j].id == a[0].id;
      assert a[0] == b[0] by {
        assert j == 0;
      }
      forall t ensures t in a[1..] <==> t in b[1..] {
        TailMembers(a, t);
        TailMembers(b, t);
      }
      TaskListingUnique(a[1..], b[1..]);
      assert a == [a[0]] + a[1..];
      assert b == [b[0]] + b[1..];
    }
  }

  /** In a listing with increasing ids, the tail holds every member but the head. */
  lemma TailMembers(ts: seq<Task>, t: Task)
    requires TaskIdsIncreasing(ts) && ts != []
    ensures t in ts[1..] <==> t in ts && t != ts[0]
  {
    if t in ts[1..] {
      var k :| 1 <= k < |ts| && ts[k] == t;
      assert ts[0].id < t.id;
    }
    if t in ts && t != ts[0] {
      var k :| 0 <= k < |ts| && ts[k] == t;
      assert ts[1..][k - 1] == t;
    }
  }

  /**
   * `Select` is exactly the listing of the matching tasks in id order: any
   * listing in increasing id order holding just those tasks equals it.
   */
  lemma SelectCharacterized(ts: seq<Task>, projectId: int, status: Option<Status>, listing: seq<Task>)
    requires TaskIdsIncreasing(ts) && TaskIdsIncreasing(listing)
    requires forall t :: t in listing <==> t in ts && Matches(t, projectId, status)
    ensures listing == Select(ts, projectId, status)
  {
    TaskListingUnique(listing, Select(ts, projectId, status));
  }

  // ---------------------------------------------------------------------------
  // Partial update of a task
  // ---------------------------------------------------------------------------

  /**
   * The task `update_task` builds: `id` and `project_id` are kept, every field
   * present in `update` is overwritten, every absent one is kept.
   */
  function ApplyUpdate(task: Task, update: TaskUpdate): (r: Task)
    ensures r.id == task.id && r.projectId == task.projectId
    ensures update.title.Some? ==> r.title == update.title.value
    ensures update.title.None? ==> r.title == task.title
    ensures update.description.Some? ==> r.description == update.description.value
    ensures update.description.None? ==> r.description == task.description
    ensures update.status.Some? ==> r.status == update.status.value
    ensures update.status.None? ==> r.status == task.status
    ensures update.priority.Some? ==> r.priority == update.priority.value
    ensures update.priority.None? ==> r.priority == task.priority
  {
    Task(
      task.id,
      update.title.GetOr(task.title),
      update.description.GetOr(task.description),
      update.status.GetOr(task.status),
      update.priority.GetOr(task.priority),
      task.projectId)
  }

  /** An update that sets no field leaves the task as it was. */
  lemma ApplyEmptyUpdate(task: Task)
    ensures ApplyUpdate(task, TaskUpdate(None, None, None, None)) == task
  {
  }

  /** Applying the same update twice is the same as applying it once. */
  lemma ApplyUpdateIdempotent(task: Task, update: TaskUpdate)
    ensures ApplyUpdate(ApplyUpdate(task, update), update) == ApplyUpdate(task, update)
  {
  }

  /** `ts` with the task whose id is `id` replaced by `t`, everything else in place. */
  function ReplaceById(ts: seq<Task>, id: int, t: Task): (r: seq<Task>)
    ensures |r| == |ts|
    ensures forall i :: 0 <= i < |ts| ==> r[i] == if ts[i].id == id then t else ts[i]
  {
    if ts == [] then [] else [if ts[0].id == id then t else ts[0]] + ReplaceById(ts[1..], id, t)
  }

  /**
   * Reassigning an existing key keeps its place: the listing after the update
   * is the old listing with that one task replaced.
   */
  lemma ValuesInOrderReassign(m: map<int, Task>, order: seq<int>, k: int, t: Task)
    requires forall i :: 0 <= i < |order| ==> order[i] in m
    requires TaskIdsMatch(m)
    requires k in m
    ensures ValuesInOrder(m[k := t], order) == ReplaceById(ValuesInOrder(m, order), k, t)
  {
    var r, r' := ValuesInOrder(m, order), ValuesInOrder(m[k := t], order);
    forall i | 0 <= i < |order| ensures r'[i] == ReplaceById(r, k, t)[i] {
      assert r[i].id == order[i];
    }
  }

  /**
   * Replacing a task by one of the same project keeps every project's unfiltered
   * listing in the same order, with that task replaced in place.
   */
  lemma {:induction false} OfProjectReplace(ts: seq<Task>, id: int, t: Task, projectId: int)
    requires forall i :: 0 <= i < |ts| && ts[i].id == id ==> ts[i].projectId == t.projectId
    ensures OfProject(ReplaceById(ts, id, t), projectId) == ReplaceById(OfProject(ts, projectId), id, t)
  {
    if ts != [] {
      assert ReplaceById(ts, id, t)[1..] == ReplaceById(ts[1..], id, t);
      OfProjectReplace(ts[1..], id, t, projectId);
    }
  }

  /** Reassigning a stored task to a record with the same id keeps the table sound. */
  lemma TaskTableReassign(m: map<int, Task>, order: seq<int>, counter: int, t: Task)
    requires TableValid(m, order, counter) && TaskIdsMatch(m)
    requires t.id in m
    ensures TableValid(m[t.id := t], order, counter) && TaskIdsMatch(m[t.id := t])
  {
  }

  /**
   * Reassigning a stored task to a record with the same id and project replaces
   * that task in place, both in the listing of all tasks and in every project's.
   */
  lemma TaskListingReassign(m: map<int, Task>, order: seq<int>, t: Task)
    requires forall i :: 0 <= i < |order| ==> order[i] in m
    requires TaskIdsMatch(m)
    requires t.id in m && t.projectId == m[t.id].projectId
    ensures ValuesInOrder(m[t.id := t], order) == ReplaceById(ValuesInOrder(m, order), t.id, t)
    ensures forall p :: OfProject(ValuesInOrder(m[t.id := t], order), p)
                     == ReplaceById(OfProject(ValuesInOrder(m, order), p), t.id, t)
  {
    var ts := ValuesInOrder(m, order);
    ValuesInOrderReassign(m, order, t.id, t);
    forall p ensures OfProject(ValuesInOrder(m[t.id := t], order), p) == ReplaceById(OfProject(ts, p), t.id, t) {
      OfProjectReplace(ts, t.id, t, p);
    }
  }

  // ---------------------------------------------------------------------------
  // The store
  // ---------------------------------------------------------------------------

  class Database {
    /** `projects` with its keys in insertion order. */
    var projects: map<int, Project>
    var projectOrder: seq<int>
    /** `tasks` with its keys in insertion order. */
    var tasks: map<int, Task>
    var taskOrder: seq<int>
    /** The next id to hand out, `_project_counter` and `_task_counter`. */
    var projectCounter: int
    var taskCounter: int

    /** Every record is stored under its own id, in a table whose bookkeeping is sound. */
    ghost predicate Valid()
      reads this
    {
      && TableValid(projects, projectOrder, projectCounter) && ProjectIdsMatch(projects)
      && TableValid(tasks, taskOrder, taskCounter) && TaskIdsMatch(tasks)
    }

    /** An empty store whose first ids are 1. */
    constructor ()
      ensures Valid()
      ensures projects == map[] && projectOrder == [] && projectCounter == 1
      ensures tasks == map[] && taskOrder == [] && taskCounter == 1
      ensures ListProjects() == [] && AllTasks() == []
      ensures forall projectId, status :: ListTasks(projectId, status) == []
    {
      projects, projectOrder, projectCounter := map[], [], 1;
      tasks, taskOrder, taskCounter := map[], [], 1;
    }

    /** `get_project`: the project stored under `projectId`, if any. */
    function GetProject(projectId: int): (r: Option<Project>)
      reads this
      requires Valid()
      ensures r.Some? <==> projectId in projects
      ensures r.Some? ==> r.value == projects[projectId] && r.value.id == projectId
    {
      if projectId in projects then Some(projects[projectId]) else None
    }

    /** `list_projects`: every stored project, once each, in creation order. */
    function ListProjects(): (r: seq<Project>)
      reads this
      requires Valid()
      ensures |r| == |projectOrder|
      ensures forall p :: p in r <==> p.id in projects && projects[p.id] == p
      ensures ProjectIdsIncreasing(r)
    {
      ValuesInOrderMembers(projects, projectOrder);
      ValuesInOrder(projects, projectOrder)
    }

    /** `get_task`: the task stored under `taskId`, if any. */
    function GetTask(taskId: int): (r: Option<Task>)
      reads this
      requires Valid()
      ensures r.Some? <==> taskId in tasks
      ensures r.Some? ==> r.value == tasks[taskId] && r.value.id == taskId
    {
      if taskId in tasks then Some(tasks[taskId]) else None
    }

    /** `self.tasks.values()`: every stored task, once each, in insertion order. */
    function AllTasks(): (r: seq<Task>)
      reads this
      requires Valid()
      ensures |r| == |taskOrder|
      ensures forall t :: t in r <==> t.id in tasks && tasks[t.id] == t
      ensures TaskIdsIncreasing(r)
    {
      ValuesInOrderMembers(tasks, taskOrder);
      ValuesInOrder(tasks, taskOrder)
    }

    /**
     * `list_tasks`: the stored tasks of `projectId` that have `status` when one
     * is given, in insertion order.
     */
    function ListTasks(projectId: int, status: Option<Status>): (r: seq<Task>)
      reads this
      requires Valid()
      ensures forall t :: t in r <==> t.id in tasks && tasks[t.id] == t && Matches(t, projectId, status)
      ensures TaskIdsIncreasing(r)
    {
      Select(AllTasks(), projectId, status)
    }

    /**
     * `list_tasks` is the one listing in id order of the matching stored
     * tasks, and a status filter only leaves tasks out of the unfiltered one.
     */
    lemma ListTasksCharacterized(projectId: int, status: Option<Status>, listing: seq<Task>)
      requires Valid()
      requires TaskIdsIncreasing(listing)
      requires forall t :: t in listing <==> t.id in tasks && tasks[t.id] == t && Matches(t, projectId, status)
      ensures listing == ListTasks(projectId, status)
      ensures status.Some? ==> Subsequence(ListTasks(projectId, status), ListTasks(projectId, None))
    {
      TaskListingUnique(listing, ListTasks(projectId, status));
      if status.Some? {
        FilteredIsSubsequence(AllTasks(), projectId, status.value);
      }
    }

    /** `create_project`: store a project under the next project id. */
    method CreateProject(name: string) returns (project: Project)
      requires Valid()
      modifies this`projects, this`projectOrder, this`projectCounter
      ensures Valid()
      ensures project == Project(old(projectCounter), name)
      ensures project.id !in old(projects)
      ensures projectCounter == old(projectCounter) + 1
      ensures projects == old(projects)[project.id := project]
      ensures projectOrder == old(projectOrder) + [project.id]
      ensures GetProject(project.id) == Some(project)
      ensures forall k :: k != project.id ==> GetProject(k) == old(GetProject(k))
      ensures ListProjects() == old(ListProjects()) + [project]
      ensures tasks == old(tasks) && taskOrder == old(taskOrder) && taskCounter == old(taskCounter)
    {
      var projectId := projectCounter;
      projectCounter := projectCounter + 1;
      project := Project(projectId, name);
      TableInsert(projects, projectOrder, projectId, project);
      projects := projects[projectId := project];
      projectOrder := projectOrder + [projectId];
    }

    /**
     * `create_task`: store a task of `projectId` under the next task id. Whether
     * `projectId` names a stored project is not checked.
     */
    method CreateTask(projectId: int, task: TaskCreate) returns (created: Task)
      requires Valid()
      modifies this`tasks, this`taskOrder, this`taskCounter
      ensures Valid()
      ensures created == Task(old(taskCounter), task.title, task.description, task.status, task.priority, projectId)
      ensures created.id !in old(tasks)
      ensures taskCounter == old(taskCounter) + 1
      ensures tasks == old(tasks)[created.id := created]
      ensures taskOrder == old(taskOrder) + [created.id]
      ensures GetTask(created.id) == Some(created)
      ensures forall k :: k != created.id ==> GetTask(k) == old(GetTask(k))
      ensures AllTasks() == old(AllTasks()) + [created]
      ensures forall p, s :: ListTasks(p, s)
                          == Select(old(AllTasks()), p, s) + (if Matches(created, p, s) then [created] else [])
      ensures projects == old(projects) && projectOrder == old(projectOrder)
      ensures projectCounter == old(projectCounter)
    {
      ghost var before := AllTasks();
      var taskId := taskCounter;
      taskCounter := taskCounter + 1;
      created := Task(taskId, task.title, task.description, task.status, task.priority, projectId);
      TableInsert(tasks, taskOrder, taskId, created);
      tasks := tasks[taskId := created];
      taskOrder := taskOrder + [taskId];
      forall p, s ensures ListTasks(p, s) == Select(before, p, s) + (if Matches(created, p, s) then [created] else []) {
        SelectAppend(before, created, p, s);
      }
    }

    /**
     * `update_task`: overwrite the supplied fields of the task stored under
     * `taskId`; `None` when there is no such task, and then nothing changes.
     */
    method UpdateTask(taskId: int, update: TaskUpdate) returns (r: Option<Task>)
      requires Valid()
      modifies this`tasks
      ensures Valid()
      ensures r.None? <==> taskId !in old(tasks)
      ensures r.None? ==> tasks == old(tasks)
      ensures r.Some? ==> r.value == ApplyUpdate(old(tasks)[taskId], update)
      ensures r.Some? ==> tasks == old(tasks)[taskId := r.value]
      ensures r.Some? ==> AllTasks() == ReplaceById(old(AllTasks()), taskId, r.value)
      ensures r.Some? ==> forall p :: ListTasks(p, None) == ReplaceById(old(ListTasks(p, None)), taskId, r.value)
      ensures taskOrder == old(taskOrder) && taskCounter == old(taskCounter)
      ensures projects == old(projects) && projectOrder == old(projectOrder)
      ensures projectCounter == old(projectCounter)
    {
      if taskId !in tasks {
        return None;
      }
      var updated := ApplyUpdate(tasks[taskId], update);
      TaskTableReassign(tasks, taskOrder, taskCounter, updated);
      TaskListingReassign(tasks, taskOrder, updated);
      tasks := tasks[taskId := updated];
      r := Some(updated);
    }
  }
}
