/**
 The store's state as a value, and every operation of `Database` as a
 function from the state before to the state after (the class in database.dfy
 is proved to follow these). `Coherent` is the invariant all of them keep.
 */
module KanbanStore {
  import opened JsCore
  import opened Ids
  import opened JsMaps
  import opened Records
  import opened Queries
  import opened Reorder

  /**
   The clock readings one call may make: the time of the call, and the two
   later instants the seeded tasks use as due dates (two and three days on).
   */
  datatype Clock = Clock(now: Time, inTwoDays: Time, inThreeDays: Time)

  /** The three maps, the seeding flag, and the number of ids drawn so far. */
  datatype Store = Store(
    projects: JsMap<Project>,
    columns: JsMap<Column>,
    tasks: JsMap<Task>,
    initialized: bool,
    nextId: nat)

  ghost predicate ProjectsWellFormed(s: Store)
  {
    && s.projects.Valid()
    && forall k :: k in s.projects.entries ==>
         s.projects.entries[k].id == k && IssuedBefore(k, s.nextId)
  }

  /** Every column is keyed by its id, belongs to a stored project and has a standard name. */
  ghost predicate ColumnsWellFormed(s: Store)
  {
    && s.columns.Valid()
    && forall k :: k in s.columns.entries ==>
         && s.columns.entries[k].id == k
         && IssuedBefore(k, s.nextId)
         && s.columns.entries[k].projectId in s.projects.entries
         && IsStandardColumnName(s.columns.entries[k].name)
  }

  /** Every task is keyed by its id and has one of the three known statuses. */
  ghost predicate TasksWellFormed(s: Store)
  {
    && s.tasks.Valid()
    && StatusesKnown(s.tasks)
    && forall k :: k in s.tasks.entries ==>
         s.tasks.entries[k].id == k && IssuedBefore(k, s.nextId)
  }

  ghost predicate Coherent(s: Store)
  {
    && ProjectsWellFormed(s)
    && ColumnsWellFormed(s)
    && TasksWellFormed(s)
    && (!s.initialized ==> s.projects == Empty() && s.columns == Empty() && s.tasks == Empty())
  }

  /** The store as `new Database()` leaves it. */
  function Unseeded(): (s: Store)
    ensures Coherent(s) && !s.initialized
  {
    Store(Empty(), Empty(), Empty(), false, 0)
  }

  lemma ConsecutiveIdsDistinct(ks: seq<Id>, first: nat)
    requires forall i :: 0 <= i < |ks| ==> ks[i] == IdOf(first + i)
    ensures Distinct(ks)
  {
    forall i, j | 0 <= i < j < |ks|
      ensures ks[i] != ks[j]
    {
      IdOfInjective(first + i, first + j);
    }
  }

  // ---------------------------------------------------------------- seeding

  const SeedProjectName: string := "Projeto de Exemplo"
  const SeedProjectDescription: string := "Projeto inicial para demonstração"
  const SeedAssignee: string := "Danielle"
  const SeedPlanTitle: string := "Planejar arquitetura do sistema"
  const SeedPlanDescription: string := "Definir estrutura de componentes e fluxo de dados"
  const SeedDashboardTitle: string := "Implementar dashboard"
  const SeedDashboardDescription: string := "Criar interface principal com métricas"
  const SeedSetupTitle: string := "Configurar ambiente de desenvolvimento"
  const SeedSetupDescription: string := "Setup inicial do projeto"
  const HighPriority: string := "high"

  /** The three demo tasks, one per standard column, each with its column's status. */
  function SeedTasks(projectId: Id, columns: seq<Column>, firstId: nat, clock: Clock): (ts: seq<Task>)
    requires |columns| == 3
    ensures |ts| == 3
    ensures forall i :: 0 <= i < 3 ==>
              && ts[i].id == IdOf(firstId + i)
              && ts[i].projectId == projectId
              && ts[i].columnId == Some(columns[i].id)
              && ts[i].order == 0
              && IsStatus(ts[i].status)
              && ColumnNameFor(ts[i].status) == StandardColumnNames[i]
  {
    var now := clock.now;
    [ Task(IdOf(firstId), SeedPlanTitle,
           Some(SeedPlanDescription), HighPriority, Some(clock.inTwoDays),
           Some(SeedAssignee), Todo, Some(columns[0].id), projectId, 0, now, now),
      Task(IdOf(firstId + 1), SeedDashboardTitle,
           Some(SeedDashboardDescription), HighPriority, Some(clock.inThreeDays),
           Some(SeedAssignee), InProgress, Some(columns[1].id), projectId, 0, now, now),
      Task(IdOf(firstId + 2), SeedSetupTitle,
           Some(SeedSetupDescription), DefaultPriority, None,
           Some(SeedAssignee), Done, Some(columns[2].id), projectId, 0, now, now) ]
  }

  function SeedProject(n: nat, now: Time): Project
  {
    Project(IdOf(n), SeedProjectName, Some(SeedProjectDescription), now, now)
  }

  function SeedColumns(n: nat, now: Time): (cs: seq<Column>)
    ensures |cs| == 3
  {
    StandardColumns(IdOf(n), n + 1, now)
  }

  function SeedTaskList(n: nat, clock: Clock): (ts: seq<Task>)
    ensures |ts| == 3
    ensures ConsecutiveTasks(ts, n + 4)
  {
    SeedTasks(IdOf(n), SeedColumns(n, clock.now), n + 4, clock)
  }

  /**
   After putting a project's standard columns (ids drawn from step `first` on)
   into `m`, every entry is either an old one or one of the new columns.
   */
  lemma StandardColumnsPut(m: JsMap<Column>, projectId: Id, first: nat, now: Time)
    requires m.Valid()
    ensures var r := PutAll(m, StandardColumns(projectId, first, now), ColumnKey);
            forall k :: k in r.entries ==>
              || (k in m.entries && r.entries[k] == m.entries[k])
              || (&& r.entries[k].id == k
                  && IssuedBefore(k, first + 3)
                  && r.entries[k].projectId == projectId
                  && IsStandardColumnName(r.entries[k].name))
  {
    var columns := StandardColumns(projectId, first, now);
    ConsecutiveIdsDistinct(KeysOf(columns, ColumnKey), first);
    forall i | 0 <= i < 3
      ensures IssuedBefore(columns[i].id, first + 3)
    {
      IdOfIssued(first + i, first + 3);
    }
    var r := PutAll(m, columns, ColumnKey);
    forall k | k in r.entries
      ensures || (k in m.entries && r.entries[k] == m.entries[k])
              || (&& r.entries[k].id == k
                  && IssuedBefore(k, first + 3)
                  && r.entries[k].projectId == projectId
                  && IsStandardColumnName(r.entries[k].name))
    {
      NewColumnEntry(m, columns, projectId, first + 3, k);
    }
  }

  /** One entry of the columns map after putting columns of one project, with ids issued before `bound`. */
  lemma NewColumnEntry(m: JsMap<Column>, columns: seq<Column>, projectId: Id, bound: nat, k: Id)
    requires m.Valid() && Distinct(KeysOf(columns, ColumnKey))
    requires forall i :: 0 <= i < |columns| ==>
               && IssuedBefore(columns[i].id, bound)
               && columns[i].projectId == projectId
               && IsStandardColumnName(columns[i].name)
    requires k in PutAll(m, columns, ColumnKey).entries
    ensures var r := PutAll(m, columns, ColumnKey);
            || (k in m.entries && r.entries[k] == m.entries[k])
            || (&& r.entries[k].id == k
                && IssuedBefore(k, bound)
                && r.entries[k].projectId == projectId
                && IsStandardColumnName(r.entries[k].name))
  {
    var ks := KeysOf(columns, ColumnKey);
    if k in ks {
      var i :| 0 <= i < |columns| && ks[i] == k;
      PutAllAt(m, columns, ColumnKey, i);
      assert PutAll(m, columns, ColumnKey).entries[k] == columns[i];
    } else {
      PutAllOther(m, columns, ColumnKey, k);
      assert k in m.entries;
    }
  }

  /** The columns map right after seeding, with ids drawn from step `n` on. */
  lemma SeedColumnsEntries(n: nat, now: Time)
    ensures var m := PutAll(Empty(), SeedColumns(n, now), ColumnKey);
            forall k :: k in m.entries ==>
              && m.entries[k].id == k
              && IssuedBefore(k, n + 7)
              && m.entries[k].projectId == IdOf(n)
              && IsStandardColumnName(m.entries[k].name)
  {
    StandardColumnsPut(Empty(), IdOf(n), n + 1, now);
  }

  /**
   After putting tasks with consecutive ids (drawn from step `first` on) into
   `m`, every entry is either an old one or one of the new tasks.
   */
  lemma ConsecutiveTasksPut(m: JsMap<Task>, tasks: seq<Task>, first: nat)
    requires m.Valid()
    requires forall i :: 0 <= i < |tasks| ==> tasks[i].id == IdOf(first + i) && IsStatus(tasks[i].status)
    ensures var r := PutAll(m, tasks, TaskKey);
            forall k :: k in r.entries ==>
              || (k in m.entries && r.entries[k] == m.entries[k])
              || (r.entries[k].id == k && IssuedBefore(k, first + |tasks|) && IsStatus(r.entries[k].status))
  {
    ConsecutiveIdsDistinct(KeysOf(tasks, TaskKey), first);
    forall i | 0 <= i < |tasks|
      ensures IssuedBefore(tasks[i].id, first + |tasks|)
    {
      IdOfIssued(first + i, first + |tasks|);
    }
    var r := PutAll(m, tasks, TaskKey);
    forall k | k in r.entries
      ensures || (k in m.entries && r.entries[k] == m.entries[k])
              || (r.entries[k].id == k && IssuedBefore(k, first + |tasks|) && IsStatus(r.entries[k].status))
    {
      NewTaskEntry(m, tasks, first + |tasks|, k);
    }
  }

  /** One entry of the tasks map after putting tasks with ids issued before `bound`. */
  lemma NewTaskEntry(m: JsMap<Task>, tasks: seq<Task>, bound: nat, k: Id)
    requires m.Valid() && Distinct(KeysOf(tasks, TaskKey))
    requires forall i :: 0 <= i < |tasks| ==> IssuedBefore(tasks[i].id, bound) && IsStatus(tasks[i].status)
    requires k in PutAll(m, tasks, TaskKey).entries
    ensures var r := PutAll(m, tasks, TaskKey);
            || (k in m.entries && r.entries[k] == m.entries[k])
            || (r.entries[k].id == k && IssuedBefore(k, bound) && IsStatus(r.entries[k].status))
  {
    var ks := KeysOf(tasks, TaskKey);
    if k in ks {
      var i :| 0 <= i < |tasks| && ks[i] == k;
      PutAllAt(m, tasks, TaskKey, i);
      assert PutAll(m, tasks, TaskKey).entries[k] == tasks[i];
    } else {
      PutAllOther(m, tasks, TaskKey, k);
      assert k in m.entries;
    }
  }

  /** Tasks whose ids are the ones drawn from step `first` on, each with a known status. */
  ghost predicate ConsecutiveTasks(tasks: seq<Task>, first: nat)
  {
    forall i :: 0 <= i < |tasks| ==> tasks[i].id == IdOf(first + i) && IsStatus(tasks[i].status)
  }

  /** Every task in `m` is keyed by its own id, drawn before `bound`, and has a known status. */
  ghost predicate TasksKeyedBefore(m: JsMap<Task>, bound: nat)
  {
    forall k :: k in m.entries ==>
      && m.entries[k].id == k
      && IssuedBefore(k, bound)
      && IsStatus(m.entries[k].status)
  }

  /** The tasks map right after seeding, with ids drawn from step `n` on. */
  lemma SeedTasksEntries(n: nat, clock: Clock)
    ensures TasksKeyedBefore(PutAll(Empty(), SeedTaskList(n, clock), TaskKey), n + 7)
  {
    FreshTasksPut(SeedTaskList(n, clock), n + 4);
  }

  /** Tasks with consecutive ids put into an empty map are keyed by their ids. */
  lemma FreshTasksPut(tasks: seq<Task>, first: nat)
    requires ConsecutiveTasks(tasks, first)
    ensures TasksKeyedBefore(PutAll(Empty(), tasks, TaskKey), first + |tasks|)
  {
    ConsecutiveTasksPut(Empty(), tasks, first);
  }

  /** The store right after seeding, the counter having been at `n`. */
  function Seeded(n: nat, clock: Clock): (r: Store)
    ensures r.initialized && r.nextId == n + 7
  {
    Store(Empty<Project>().Set(IdOf(n), SeedProject(n, clock.now)),
          PutAll(Empty(), SeedColumns(n, clock.now), ColumnKey),
          PutAll(Empty(), SeedTaskList(n, clock), TaskKey),
          true,
          n + 7)
  }

  lemma SeededProjectsWellFormed(n: nat, clock: Clock)
    ensures ProjectsWellFormed(Seeded(n, clock))
  {
    var r := Seeded(n, clock);
    OneProjectWellFormed(r, n, SeedProject(n, clock.now));
  }

  /** A store whose only project is keyed by the `n`-th id, drawn before `nextId`. */
  lemma OneProjectWellFormed(s: Store, n: nat, project: Project)
    requires s.projects == Empty<Project>().Set(IdOf(n), project)
    requires project.id == IdOf(n) && n < s.nextId
    ensures ProjectsWellFormed(s)
  {
    IdOfIssued(n, s.nextId);
    assert s.projects.entries == map[IdOf(n) := project];
  }

  lemma SeededColumnsWellFormed(n: nat, clock: Clock)
    ensures ColumnsWellFormed(Seeded(n, clock))
  {
    var r := Seeded(n, clock);
    assert r.projects.entries == map[IdOf(n) := SeedProject(n, clock.now)];
    assert r.columns == PutAll(Empty(), SeedColumns(n, clock.now), ColumnKey);
    SeedColumnsEntries(n, clock.now);
    assert forall k :: k in r.columns.entries ==> r.columns.entries[k].projectId == IdOf(n);
  }

  lemma SeededTasksWellFormed(n: nat, clock: Clock)
    ensures TasksWellFormed(Seeded(n, clock))
  {
    var r := Seeded(n, clock);
    assert r.tasks == PutAll(Empty(), SeedTaskList(n, clock), TaskKey);
    SeedTasksEntries(n, clock);
  }

  lemma SeededCoherent(n: nat, clock: Clock)
    ensures Coherent(Seeded(n, clock))
  {
    SeededProjectsWellFormed(n, clock);
    SeededColumnsWellFormed(n, clock);
    SeededTasksWellFormed(n, clock);
  }

  /**
   `initialize()`: once only, add the demo project, its three standard
   columns and three tasks, drawing seven ids in that order.
   */
  function Initialize(s: Store, clock: Clock): (r: Store)
    ensures r.initialized
    ensures Coherent(s) ==> Coherent(r)
    ensures s.initialized ==> r == s
    ensures !s.initialized ==> r == Seeded(s.nextId, clock) && r.nextId == s.nextId + 7
  {
    if s.initialized then s
    else
      SeededCoherent(s.nextId, clock);
      Seeded(s.nextId, clock)
  }

  // ---------------------------------------------------------------- projects

  /** What `createProject` returns: the project and its three columns. */
  datatype CreatedProject = CreatedProject(project: Project, columns: seq<Column>)

  function CreateProjectResult(s: Store, name: string, description: Option<string>, now: Time): (r: CreatedProject)
    ensures r.project == Project(IdOf(s.nextId), name, description, now, now)
    ensures r.columns == StandardColumns(r.project.id, s.nextId + 1, now)
  {
    var projectId := IdOf(s.nextId);
    CreatedProject(Project(projectId, name, description, now, now), StandardColumns(projectId, s.nextId + 1, now))
  }

  /** `createProject`: one new project and its three standard columns; tasks untouched. */
  function CreateProject(s: Store, name: string, description: Option<string>, now: Time): Store
    requires Coherent(s)
  {
    var created := CreateProjectResult(s, name, description, now);
    s.(projects := s.projects.Set(created.project.id, created.project),
       columns := PutAll(s.columns, created.columns, ColumnKey),
       nextId := s.nextId + 4)
  }

  lemma CreateProjectCoherent(s: Store, name: string, description: Option<string>, now: Time)
    requires Coherent(s) && s.initialized
    ensures Coherent(CreateProject(s, name, description, now))
  {
    var r := CreateProject(s, name, description, now);
    var created := CreateProjectResult(s, name, description, now);
    var projectId := created.project.id;
    assert r.projects == s.projects.Set(projectId, created.project);
    assert r.columns == PutAll(s.columns, created.columns, ColumnKey);
    assert r.tasks == s.tasks && r.nextId == s.nextId + 4;
    CreatedProjectsWellFormed(s, r.projects, name, description, now);
    CreatedColumnsWellFormed(s, r, projectId, now);
    LaterTasksWellFormed(s, r);
  }

  /** Drawing more ids keeps the tasks well formed when they are left alone. */
  lemma LaterTasksWellFormed(s: Store, r: Store)
    requires TasksWellFormed(s)
    requires r.tasks == s.tasks && s.nextId <= r.nextId
    ensures TasksWellFormed(r)
  {
  }

  lemma CreatedProjectsWellFormed(s: Store, projects: JsMap<Project>, name: string, description: Option<string>, now: Time)
    requires ProjectsWellFormed(s)
    requires projects == s.projects.Set(IdOf(s.nextId), Project(IdOf(s.nextId), name, description, now, now))
    ensures ProjectsWellFormed(s.(projects := projects, nextId := s.nextId + 4))
  {
    IdOfIssued(s.nextId, s.nextId + 4);
  }

  lemma CreatedColumnsWellFormed(s: Store, r: Store, projectId: Id, now: Time)
    requires ColumnsWellFormed(s)
    requires r.projects.entries.Keys == s.projects.entries.Keys + {projectId}
    requires r.nextId == s.nextId + 4
    requires r.columns == PutAll(s.columns, StandardColumns(projectId, s.nextId + 1, now), ColumnKey)
    ensures ColumnsWellFormed(r)
  {
    StandardColumnsPut(s.columns, projectId, s.nextId + 1, now);
    forall k | k in r.columns.entries
      ensures r.columns.entries[k].id == k && IssuedBefore(k, r.nextId)
      ensures r.columns.entries[k].projectId in r.projects.entries
      ensures IsStandardColumnName(r.columns.entries[k].name)
    {
    }
  }

  /** A store that holds the new project and its columns after `s` is `CreateProject(s, …)`. */
  lemma IsCreatedProject(s: Store, t: Store, r: CreatedProject, name: string, description: Option<string>, now: Time)
    requires Coherent(s) && s.initialized
    requires r == CreateProjectResult(s, name, description, now)
    requires t.projects == s.projects.Set(r.project.id, r.project)
    requires t.columns == PutAll(s.columns, r.columns, ColumnKey)
    requires t.tasks == s.tasks && t.initialized && t.nextId == s.nextId + 4
    ensures t == CreateProject(s, name, description, now) && Coherent(t)
  {
    assert t == s.(projects := t.projects, columns := t.columns, nextId := t.nextId);
    CreateProjectCoherent(s, name, description, now);
  }

  /** What `updateProject` returns: nothing for an unknown id, else the merged project. */
  function UpdateProjectResult(s: Store, id: Id, patch: ProjectPatch, now: Time): (r: Option<Project>)
    ensures r.None? <==> id !in s.projects.entries
    ensures r.Some? ==> r.value == PatchProject(s.projects.entries[id], patch, now)
  {
    match s.projects.Get(id)
    case None => None
    case Some(p) => Some(PatchProject(p, patch, now))
  }

  function UpdateProject(s: Store, id: Id, patch: ProjectPatch, now: Time): Store
    requires Coherent(s)
  {
    match UpdateProjectResult(s, id, patch, now)
    case None => s
    case Some(p) => s.(projects := s.projects.Set(id, p))
  }

  lemma UpdateProjectCoherent(s: Store, id: Id, patch: ProjectPatch, now: Time)
    requires Coherent(s)
    ensures Coherent(UpdateProject(s, id, patch, now))
  {
  }

  /** The ids of the columns that belong to project `id`. */
  function OwnedColumns(columns: JsMap<Column>, id: Id): set<Id>
  {
    set k | k in columns.entries && columns.entries[k].projectId == id
  }

  /** The ids of the tasks that belong to project `id`. */
  function OwnedTasks(tasks: JsMap<Task>, id: Id): set<Id>
  {
    set k | k in tasks.entries && tasks.entries[k].projectId == id
  }

  /** `deleteProject`: the project goes, and with it every column and task it owns. */
  function DeleteProject(s: Store, id: Id): Store
    requires Coherent(s)
  {
    s.(projects := s.projects.Delete(id),
       columns := s.columns.RemoveKeys(OwnedColumns(s.columns, id)),
       tasks := s.tasks.RemoveKeys(OwnedTasks(s.tasks, id)))
  }

  lemma DeleteProjectCoherent(s: Store, id: Id)
    requires Coherent(s)
    ensures Coherent(DeleteProject(s, id))
  {
    var r := DeleteProject(s, id);
    forall k | k in r.columns.entries
      ensures r.columns.entries[k].projectId in r.projects.entries
    {
      assert k !in OwnedColumns(s.columns, id);
    }
  }

  // ---------------------------------------------------------------- tasks

  function CreateTaskResult(s: Store, data: NewTask, now: Time): Task
    requires s.tasks.Valid()
  {
    CreatedTask(IdOf(s.nextId), data, s.tasks.Values(), now)
  }

  /** `createTask`: the new task is stored last; nothing else changes. */
  function CreateTask(s: Store, data: NewTask, now: Time): Store
    requires Coherent(s)
  {
    var t := CreateTaskResult(s, data, now);
    s.(tasks := s.tasks.Set(t.id, t), nextId := s.nextId + 1)
  }

  lemma CreateTaskCoherent(s: Store, data: NewTask, now: Time)
    requires Coherent(s) && s.initialized
    ensures Coherent(CreateTask(s, data, now))
  {
    IdOfIssued(s.nextId, s.nextId + 1);
  }

  /** A store that holds the new task after `s` is `CreateTask(s, …)`. */
  lemma IsCreatedTask(s: Store, t: Store, task: Task, data: NewTask, now: Time)
    requires Coherent(s) && s.initialized
    requires task == CreateTaskResult(s, data, now)
    requires t.tasks == s.tasks.Set(task.id, task)
    requires t.projects == s.projects && t.columns == s.columns
    requires t.initialized && t.nextId == s.nextId + 1
    ensures t == CreateTask(s, data, now) && Coherent(t)
  {
    CreateTaskCoherent(s, data, now);
  }

  /** What `updateTask` returns: nothing for an unknown id, else the merged task. */
  function UpdateTaskResult(s: Store, id: Id, patch: TaskPatch, now: Time): (r: Option<Task>)
    ensures r.None? <==> id !in s.tasks.entries
    ensures r.Some? ==> r.value == PatchTask(s.tasks.entries[id], patch, s.columns, now)
  {
    match s.tasks.Get(id)
    case None => None
    case Some(t) => Some(PatchTask(t, patch, s.columns, now))
  }

  function UpdateTask(s: Store, id: Id, patch: TaskPatch, now: Time): Store
    requires Coherent(s)
  {
    match UpdateTaskResult(s, id, patch, now)
    case None => s
    case Some(t) => s.(tasks := s.tasks.Set(id, t))
  }

  lemma UpdateTaskCoherent(s: Store, id: Id, patch: TaskPatch, now: Time)
    requires Coherent(s)
    ensures Coherent(UpdateTask(s, id, patch, now))
  {
    if id in s.tasks.entries {
      var t := s.tasks.entries[id];
      assert IsStatus(t.status);
      assert IsStatus(StatusAfterUpdate(s.columns, patch.columnId, t.status));
    }
  }

  /** `deleteTask`: removes the task if present. */
  function DeleteTask(s: Store, id: Id): Store
    requires Coherent(s)
  {
    s.(tasks := s.tasks.Delete(id))
  }

  lemma DeleteTaskCoherent(s: Store, id: Id)
    requires Coherent(s)
    ensures Coherent(DeleteTask(s, id))
  {
  }

  /** `reorderTasks`: the batch applied entry by entry to the tasks map. */
  function ReorderTasks(s: Store, updates: seq<Placement>, now: Time): Store
    requires Coherent(s)
  {
    s.(tasks := ApplyPlacements(s.tasks, s.columns, updates, now))
  }

  lemma ReorderTasksCoherent(s: Store, updates: seq<Placement>, now: Time)
    requires Coherent(s)
    ensures Coherent(ReorderTasks(s, updates, now))
  {
    var r := ReorderTasks(s, updates, now);
    StatusesStayKnown(s.tasks, s.columns, updates, now);
    forall k | k in r.tasks.entries
      ensures r.tasks.entries[k].id == k
    {
      ContentKept(s.tasks, s.columns, updates, now, k);
    }
    if !s.initialized {
      assert updates != [] ==> r.tasks == ApplyPlacement(ApplyPlacements(s.tasks, s.columns, updates[..|updates| - 1], now), s.columns, updates[|updates| - 1], now);
    }
  }

  // ---------------------------------------------------------------- queries

  function GetProjects(s: Store): seq<ProjectSummary>
    requires s.projects.Valid() && s.columns.Valid() && s.tasks.Valid()
  {
    Summaries(s.projects.Values(), s.columns.Values(), s.tasks.Values())
  }

  function GetProject(s: Store, id: Id): Option<ProjectDetail>
    requires s.columns.Valid() && s.tasks.Valid()
  {
    ProjectView(s.projects, s.columns.Values(), s.tasks.Values(), id)
  }

  function GetTasks(s: Store, projectId: Option<Id>): seq<Task>
    requires s.tasks.Valid()
  {
    TasksView(s.tasks.Values(), projectId)
  }

  /** `tasks.get(id) || null`. */
  function GetTask(s: Store, id: Id): Option<Task>
  {
    s.tasks.Get(id)
  }
}
