/**
 The `Database` object itself: three maps updated in place, the seeding flag,
 and the id counter. Every public method first runs the lazy seeding and then
 does its work step by step; each is proved to leave the object in the state
 the matching function of `KanbanStore` describes, so the properties proved
 there hold of the object.
 */
module Db {
  import opened JsCore
  import opened Ids
  import opened JsMaps
  import opened Records
  import opened Queries
  import opened Reorder
  import opened KanbanStore
  import Seqs

  class Database {
    var projects: JsMap<Project>
    var columns: JsMap<Column>
    var tasks: JsMap<Task>
    var initialized: bool
    /** How many ids `generateId` has handed out. */
    var nextId: nat

    /** The object's state as a `KanbanStore.Store` value. */
    ghost function Snapshot(): Store
      reads this
    {
      Store(projects, columns, tasks, initialized, nextId)
    }

    ghost predicate Valid()
      reads this
    {
      Coherent(Snapshot())
    }

    constructor ()
      ensures Valid() && Snapshot() == Unseeded()
    {
      projects := Empty();
      columns := Empty();
      tasks := Empty();
      initialized := false;
      nextId := 0;
    }

    /** A fresh id; the counter is the only thing that changes. */
    method GenerateId() returns (id: Id)
      modifies this
      ensures id == IdOf(old(nextId)) && nextId == old(nextId) + 1
      ensures projects == old(projects) && columns == old(columns) && tasks == old(tasks)
      ensures initialized == old(initialized)
    {
      id := IdOf(nextId);
      nextId := nextId + 1;
    }

    /** The three standard columns of `projectId`, each with a freshly drawn id. */
    method DrawStandardColumns(projectId: Id, now: Time) returns (cs: seq<Column>)
      modifies this
      ensures cs == StandardColumns(projectId, old(nextId), now)
      ensures nextId == old(nextId) + 3
      ensures projects == old(projects) && columns == old(columns) && tasks == old(tasks)
      ensures initialized == old(initialized)
    {
      var todo := GenerateId();
      var inProgress := GenerateId();
      var done := GenerateId();
      cs := [ Column(todo, TodoColumn, 0, projectId, now, now),
              Column(inProgress, InProgressColumn, 1, projectId, now, now),
              Column(done, DoneColumn, 2, projectId, now, now) ];
      var expected := StandardColumns(projectId, old(nextId), now);
      assert cs[0] == expected[0] && cs[1] == expected[1] && cs[2] == expected[2];
    }

    /** `cs.forEach((col) => this.columns.set(col.id, col))`. */
    method StoreColumns(cs: seq<Column>)
      requires columns.Valid()
      modifies this
      ensures columns == PutAll(old(columns), cs, ColumnKey)
      ensures projects == old(projects) && tasks == old(tasks)
      ensures initialized == old(initialized) && nextId == old(nextId)
    {
      var i := 0;
      while i < |cs|
        invariant 0 <= i <= |cs|
        invariant columns == PutAll(old(columns), cs[..i], ColumnKey)
        invariant projects == old(projects) && tasks == old(tasks)
        invariant initialized == old(initialized) && nextId == old(nextId)
      {
        PutAllStep(old(columns), cs, ColumnKey, i);
        columns := columns.Set(cs[i].id, cs[i]);
        i := i + 1;
      }
      assert cs[..|cs|] == cs;
    }

    /** `ts.forEach((task) => this.tasks.set(task.id, task))`. */
    method StoreTasks(ts: seq<Task>)
      requires tasks.Valid()
      modifies this
      ensures tasks == PutAll(old(tasks), ts, TaskKey)
      ensures projects == old(projects) && columns == old(columns)
      ensures initialized == old(initialized) && nextId == old(nextId)
    {
      var i := 0;
      while i < |ts|
        invariant 0 <= i <= |ts|
        invariant tasks == PutAll(old(tasks), ts[..i], TaskKey)
        invariant projects == old(projects) && columns == old(columns)
        invariant initialized == old(initialized) && nextId == old(nextId)
      {
        PutAllStep(old(tasks), ts, TaskKey, i);
        tasks := tasks.Set(ts[i].id, ts[i]);
        i := i + 1;
      }
      assert ts[..|ts|] == ts;
    }

    /** `initialize()`: seeds the demo project once; later calls do nothing. */
    method Initialize(clock: Clock)
      requires Valid()
      modifies this
      ensures Valid()
      ensures Snapshot() == KanbanStore.Initialize(old(Snapshot()), clock)
    {
      if initialized {
        return;
      }
      ghost var n := nextId;
      Seed(clock);
      SeededCoherent(n, clock);
    }

    /** The body of `initialize()` past its guard: the demo project, its columns, its tasks. */
    method Seed(clock: Clock)
      requires projects == Empty() && columns == Empty() && tasks == Empty()
      modifies this
      ensures Snapshot() == Seeded(old(nextId), clock)
    {
      var projectId, cs := SeedBoard(clock);
      SeedTaskEntries(projectId, cs, clock, old(nextId));
      initialized := true;
    }

    /** The three demo tasks, drawn and stored. */
    method SeedTaskEntries(projectId: Id, cs: seq<Column>, clock: Clock, ghost n: nat)
      requires projectId == IdOf(n) && cs == SeedColumns(n, clock.now) && nextId == n + 4
      requires tasks == Empty()
      modifies this
      ensures tasks == Seeded(n, clock).tasks
      ensures nextId == n + 7
      ensures projects == old(projects) && columns == old(columns) && initialized == old(initialized)
    {
      var ts := DrawSeedTasks(projectId, cs, clock, n);
      StoreTasks(ts);
    }

    /** The demo project and its three columns. */
    method SeedBoard(clock: Clock) returns (projectId: Id, cs: seq<Column>)
      requires projects == Empty()
      requires columns == Empty()
      modifies this
      ensures projectId == IdOf(old(nextId)) && cs == SeedColumns(old(nextId), clock.now)
      ensures projects == Seeded(old(nextId), clock).projects
      ensures columns == Seeded(old(nextId), clock).columns
      ensures tasks == old(tasks) && initialized == old(initialized) && nextId == old(nextId) + 4
    {
      var now := clock.now;
      projectId := GenerateId();
      var project := Project(projectId, SeedProjectName, Some(SeedProjectDescription), now, now);
      projects := projects.Set(projectId, project);
      cs := DrawStandardColumns(projectId, now);
      StoreColumns(cs);
    }

    /** The three demo tasks, one per column, each with a freshly drawn id. */
    method DrawSeedTasks(projectId: Id, cs: seq<Column>, clock: Clock, ghost n: nat) returns (ts: seq<Task>)
      requires projectId == IdOf(n) && cs == SeedColumns(n, clock.now) && nextId == n + 4
      modifies this
      ensures ts == SeedTaskList(n, clock)
      ensures nextId == old(nextId) + 3
      ensures projects == old(projects) && columns == old(columns) && tasks == old(tasks)
      ensures initialized == old(initialized)
    {
      var now := clock.now;
      var first := GenerateId();
      var second := GenerateId();
      var third := GenerateId();
      ts := [
        Task(first, SeedPlanTitle,
             Some(SeedPlanDescription), HighPriority, Some(clock.inTwoDays),
             Some(SeedAssignee), Todo, Some(cs[0].id), projectId, 0, now, now),
        Task(second, SeedDashboardTitle,
             Some(SeedDashboardDescription), HighPriority, Some(clock.inThreeDays),
             Some(SeedAssignee), InProgress, Some(cs[1].id), projectId, 0, now, now),
        Task(third, SeedSetupTitle,
             Some(SeedSetupDescription), DefaultPriority, None,
             Some(SeedAssignee), Done, Some(cs[2].id), projectId, 0, now, now) ];
    }

    // -------------------------------------------------------------- projects

    method GetProjects(clock: Clock) returns (r: seq<ProjectSummary>)
      requires Valid()
      modifies this
      ensures Valid()
      ensures Snapshot() == KanbanStore.Initialize(old(Snapshot()), clock)
      ensures r == KanbanStore.GetProjects(Snapshot())
    {
      Initialize(clock);
      r := Summaries(projects.Values(), columns.Values(), tasks.Values());
    }

    method GetProject(clock: Clock, id: Id) returns (r: Option<ProjectDetail>)
      requires Valid()
      modifies this
      ensures Valid()
      ensures Snapshot() == KanbanStore.Initialize(old(Snapshot()), clock)
      ensures r == KanbanStore.GetProject(Snapshot(), id)
    {
      Initialize(clock);
      r := ProjectView(projects, columns.Values(), tasks.Values(), id);
    }

    method CreateProject(clock: Clock, name: string, description: Option<string>) returns (r: CreatedProject)
      requires Valid()
      modifies this
      ensures Valid()
      ensures var s := KanbanStore.Initialize(old(Snapshot()), clock);
              && r == CreateProjectResult(s, name, description, clock.now)
              && Snapshot() == KanbanStore.CreateProject(s, name, description, clock.now)
    {
      Initialize(clock);
      r := CreateSeededProject(name, description, clock.now);
    }

    /** `createProject` once the store is seeded. */
    method CreateSeededProject(name: string, description: Option<string>, now: Time) returns (r: CreatedProject)
      requires Valid() && initialized
      modifies this
      ensures Valid()
      ensures r == CreateProjectResult(old(Snapshot()), name, description, now)
      ensures Snapshot() == KanbanStore.CreateProject(old(Snapshot()), name, description, now)
    {
      ghost var s := Snapshot();
      r := AddProject(name, description, now, s.nextId);
      assert r == CreateProjectResult(s, name, description, now);
      IsCreatedProject(s, Snapshot(), r, name, description, now);
    }

    /** The body of `createProject` past the seeding: one id for the project, three for its columns. */
    method AddProject(name: string, description: Option<string>, now: Time, ghost n: nat) returns (r: CreatedProject)
      requires projects.Valid() && columns.Valid() && nextId == n
      modifies this
      ensures r == CreatedProject(Project(IdOf(n), name, description, now, now), StandardColumns(IdOf(n), n + 1, now))
      ensures projects == old(projects).Set(r.project.id, r.project)
      ensures columns == PutAll(old(columns), r.columns, ColumnKey)
      ensures tasks == old(tasks) && initialized == old(initialized) && nextId == n + 4
    {
      var id := GenerateId();
      var project := Project(id, name, description, now, now);
      projects := projects.Set(id, project);
      var cs := DrawStandardColumns(id, now);
      assert cs == StandardColumns(IdOf(n), n + 1, now);
      StoreColumns(cs);
      r := CreatedProject(project, cs);
    }

    method UpdateProject(clock: Clock, id: Id, patch: ProjectPatch) returns (r: Option<Project>)
      requires Valid()
      modifies this
      ensures Valid()
      ensures var s := KanbanStore.Initialize(old(Snapshot()), clock);
              && r == UpdateProjectResult(s, id, patch, clock.now)
              && Snapshot() == KanbanStore.UpdateProject(s, id, patch, clock.now)
    {
      Initialize(clock);
      r := UpdateSeededProject(id, patch, clock.now);
    }

    /** `updateProject` once the store is seeded. */
    method UpdateSeededProject(id: Id, patch: ProjectPatch, now: Time) returns (r: Option<Project>)
      requires Valid() && initialized
      modifies this
      ensures Valid()
      ensures r == UpdateProjectResult(old(Snapshot()), id, patch, now)
      ensures Snapshot() == KanbanStore.UpdateProject(old(Snapshot()), id, patch, now)
    {
      ghost var s := Snapshot();
      match projects.Get(id)
      case None =>
        r := None;
      case Some(project) =>
        var updated := project.(
          name := if patch.name.Some? then patch.name.value else project.name,
          description := if patch.description.Some? then patch.description else project.description,
          updatedAt := now);
        projects := projects.Set(id, updated);
        r := Some(updated);
      UpdateProjectCoherent(s, id, patch, now);
    }

    /**
     `deleteProject(id)`: the project goes, then each of its columns, then
     each of its tasks, one `delete` at a time.
     */
    method DeleteProject(clock: Clock, id: Id)
      requires Valid()
      modifies this
      ensures Valid()
      ensures Snapshot() == KanbanStore.DeleteProject(KanbanStore.Initialize(old(Snapshot()), clock), id)
    {
      Initialize(clock);
      DeleteSeededProject(id);
    }

    /** `deleteProject` once the store is seeded. */
    method DeleteSeededProject(id: Id)
      requires Valid() && initialized
      modifies this
      ensures Valid()
      ensures Snapshot() == KanbanStore.DeleteProject(old(Snapshot()), id)
    {
      ghost var s := Snapshot();
      projects := projects.Delete(id);
      var doomedColumns := Seqs.Filter(columns.Values(), ColumnOfProject(id));
      DeleteColumns(doomedColumns);
      var doomedTasks := Seqs.Filter(tasks.Values(), OfProject(id));
      DeleteTasks(doomedTasks);
      IsDeletedProject(s, Snapshot(), id, doomedColumns, doomedTasks);
    }

    /** `doomed.forEach((c) => this.columns.delete(c.id))`. */
    method DeleteColumns(doomed: seq<Column>)
      requires columns.Valid()
      modifies this
      ensures columns == DeleteEach(old(columns), doomed, ColumnKey)
      ensures projects == old(projects) && tasks == old(tasks)
      ensures initialized == old(initialized) && nextId == old(nextId)
    {
      var i := 0;
      while i < |doomed|
        invariant 0 <= i <= |doomed|
        invariant columns == DeleteEach(old(columns), doomed[..i], ColumnKey)
        invariant projects == old(projects) && tasks == old(tasks)
        invariant initialized == old(initialized) && nextId == old(nextId)
      {
        DeleteEachStep(old(columns), doomed, ColumnKey, i);
        columns := columns.Delete(doomed[i].id);
        i := i + 1;
      }
      assert doomed[..|doomed|] == doomed;
    }

    /** `doomed.forEach((t) => this.tasks.delete(t.id))`. */
    method DeleteTasks(doomed: seq<Task>)
      requires tasks.Valid()
      modifies this
      ensures tasks == DeleteEach(old(tasks), doomed, TaskKey)
      ensures projects == old(projects) && columns == old(columns)
      ensures initialized == old(initialized) && nextId == old(nextId)
    {
      var i := 0;
      while i < |doomed|
        invariant 0 <= i <= |doomed|
        invariant tasks == DeleteEach(old(tasks), doomed[..i], TaskKey)
        invariant projects == old(projects) && columns == old(columns)
        invariant initialized == old(initialized) && nextId == old(nextId)
      {
        DeleteEachStep(old(tasks), doomed, TaskKey, i);
        tasks := tasks.Delete(doomed[i].id);
        i := i + 1;
      }
      assert doomed[..|doomed|] == doomed;
    }

    // -------------------------------------------------------------- tasks

    method GetTasks(clock: Clock, projectId: Option<Id>) returns (r: seq<Task>)
      requires Valid()
      modifies this
      ensures Valid()
      ensures Snapshot() == KanbanStore.Initialize(old(Snapshot()), clock)
      ensures r == KanbanStore.GetTasks(Snapshot(), projectId)
    {
      Initialize(clock);
      var allTasks := tasks.Values();
      r := if Truthy(projectId) then TasksOfProject(allTasks, projectId.value) else allTasks;
    }

    method GetTask(clock: Clock, id: Id) returns (r: Option<Task>)
      requires Valid()
      modifies this
      ensures Valid()
      ensures Snapshot() == KanbanStore.Initialize(old(Snapshot()), clock)
      ensures r == KanbanStore.GetTask(Snapshot(), id)
    {
      Initialize(clock);
      r := tasks.Get(id);
    }

    method CreateTask(clock: Clock, data: NewTask) returns (task: Task)
      requires Valid()
      modifies this
      ensures Valid()
      ensures var s := KanbanStore.Initialize(old(Snapshot()), clock);
              && task == CreateTaskResult(s, data, clock.now)
              && Snapshot() == KanbanStore.CreateTask(s, data, clock.now)
    {
      Initialize(clock);
      task := CreateSeededTask(data, clock.now);
    }

    /** `createTask` once the store is seeded. */
    method CreateSeededTask(data: NewTask, now: Time) returns (task: Task)
      requires Valid() && initialized
      modifies this
      ensures Valid()
      ensures task == CreateTaskResult(old(Snapshot()), data, now)
      ensures Snapshot() == KanbanStore.CreateTask(old(Snapshot()), data, now)
    {
      ghost var s := Snapshot();
      var id := GenerateId();
      var tasksInColumn := |Seqs.Filter(tasks.Values(), ColumnIdIs(OrNull(data.columnId)))|;
      task := Task(id, data.title, data.description, PriorityOrDefault(data.priority), data.dueDate,
                   data.assignee, Todo, data.columnId, data.projectId, tasksInColumn, now, now);
      assert task == CreateTaskResult(s, data, now);
      tasks := tasks.Set(id, task);
      IsCreatedTask(s, Snapshot(), task, data, now);
    }

    method UpdateTask(clock: Clock, id: Id, patch: TaskPatch) returns (r: Option<Task>)
      requires Valid()
      modifies this
      ensures Valid()
      ensures var s := KanbanStore.Initialize(old(Snapshot()), clock);
              && r == UpdateTaskResult(s, id, patch, clock.now)
              && Snapshot() == KanbanStore.UpdateTask(s, id, patch, clock.now)
    {
      Initialize(clock);
      r := UpdateSeededTask(id, patch, clock.now);
    }

    /** `updateTask` once the store is seeded. */
    method UpdateSeededTask(id: Id, patch: TaskPatch, now: Time) returns (r: Option<Task>)
      requires Valid() && initialized
      modifies this
      ensures Valid()
      ensures r == UpdateTaskResult(old(Snapshot()), id, patch, now)
      ensures Snapshot() == KanbanStore.UpdateTask(old(Snapshot()), id, patch, now)
    {
      ghost var s := Snapshot();
      match tasks.Get(id)
      case None =>
        r := None;
      case Some(task) =>
        var status := task.status;
        if Truthy(patch.columnId) {
          match columns.Get(patch.columnId.value)
          case None =>
          case Some(column) =>
            if column.name == TodoColumn {
              status := Todo;
            } else if column.name == InProgressColumn {
              status := InProgress;
            } else if column.name == DoneColumn {
              status := Done;
            }
        }
        var updated := task.(
          title := Override(patch.title, task.title),
          description := OverrideOptional(patch.description, task.description),
          priority := Override(patch.priority, task.priority),
          dueDate := OverrideOptional(patch.dueDate, task.dueDate),
          assignee := OverrideOptional(patch.assignee, task.assignee),
          columnId := OverrideOptional(patch.columnId, task.columnId),
          order := Override(patch.order, task.order),
          status := status,
          updatedAt := now);
        tasks := tasks.Set(id, updated);
        r := Some(updated);
      UpdateTaskCoherent(s, id, patch, now);
    }

    method DeleteTask(clock: Clock, id: Id)
      requires Valid()
      modifies this
      ensures Valid()
      ensures Snapshot() == KanbanStore.DeleteTask(KanbanStore.Initialize(old(Snapshot()), clock), id)
    {
      Initialize(clock);
      DeleteSeededTask(id);
    }

    /** `deleteTask` once the store is seeded. */
    method DeleteSeededTask(id: Id)
      requires Valid() && initialized
      modifies this
      ensures Valid()
      ensures Snapshot() == KanbanStore.DeleteTask(old(Snapshot()), id)
    {
      ghost var s := Snapshot();
      tasks := tasks.Delete(id);
      DeleteTaskCoherent(s, id);
    }

    /** `reorderTasks(updates)`: the entries applied in order, unknown ids skipped. */
    method ReorderTasks(clock: Clock, updates: seq<Placement>)
      requires Valid()
      modifies this
      ensures Valid()
      ensures Snapshot() == KanbanStore.ReorderTasks(KanbanStore.Initialize(old(Snapshot()), clock), updates, clock.now)
    {
      Initialize(clock);
      ReorderSeededTasks(updates, clock.now);
    }

    /** `reorderTasks` once the store is seeded. */
    method ReorderSeededTasks(updates: seq<Placement>, now: Time)
      requires Valid() && initialized
      modifies this
      ensures Valid()
      ensures Snapshot() == KanbanStore.ReorderTasks(old(Snapshot()), updates, now)
    {
      ghost var s := Snapshot();
      var i := 0;
      while i < |updates|
        invariant 0 <= i <= |updates|
        invariant tasks == ApplyPlacements(s.tasks, s.columns, updates[..i], now)
        invariant projects == s.projects && columns == s.columns
        invariant initialized == s.initialized && nextId == s.nextId
      {
        assert updates[..i + 1][..i] == updates[..i];
        Place(updates[i], now);
        i := i + 1;
      }
      assert updates[..|updates|] == updates;
      ReorderTasksCoherent(s, updates, now);
    }

    /** One entry of the batch: move a known task and re-derive its status. */
    method Place(u: Placement, now: Time)
      requires tasks.Valid()
      modifies this
      ensures tasks == ApplyPlacement(old(tasks), columns, u, now)
      ensures projects == old(projects) && columns == old(columns)
      ensures initialized == old(initialized) && nextId == old(nextId)
    {
      match tasks.Get(u.id)
      case None =>
      case Some(task) =>
        var column := columns.Get(u.columnId);
        var status := task.status;
        if column.Some? {
          if column.value.name == TodoColumn {
            status := Todo;
          } else if column.value.name == InProgressColumn {
            status := InProgress;
          } else if column.value.name == DoneColumn {
            status := Done;
          }
        }
        tasks := tasks.Set(u.id, task.(columnId := Some(u.columnId), order := u.order,
                                       status := status, updatedAt := now));
    }
  }

  /** Deleting the listed columns and tasks one by one is `deleteProject`. */
  lemma IsDeletedProject(s: Store, t: Store, id: Id, doomedColumns: seq<Column>, doomedTasks: seq<Task>)
    requires Coherent(s)
    requires doomedColumns == Seqs.Filter(s.columns.Values(), ColumnOfProject(id))
    requires doomedTasks == Seqs.Filter(s.tasks.Values(), OfProject(id))
    requires t.projects == s.projects.Delete(id)
    requires t.columns == DeleteEach(s.columns, doomedColumns, ColumnKey)
    requires t.tasks == DeleteEach(s.tasks, doomedTasks, TaskKey)
    requires t.initialized == s.initialized && t.nextId == s.nextId
    ensures t == KanbanStore.DeleteProject(s, id) && Coherent(t)
  {
    DeleteEachRemovesKeys(s.columns, doomedColumns, ColumnKey);
    OwnedColumnsListed(s.columns, id, doomedColumns);
    DeleteEachRemovesKeys(s.tasks, doomedTasks, TaskKey);
    OwnedTasksListed(s.tasks, id, doomedTasks);
    DeleteProjectCoherent(s, id);
  }

  /** The columns `deleteProject` walks over are exactly the ones the project owns. */
  lemma OwnedColumnsListed(columns: JsMap<Column>, id: Id, doomed: seq<Column>)
    requires columns.Valid()
    requires forall k :: k in columns.entries ==> columns.entries[k].id == k
    requires doomed == Seqs.Filter(columns.Values(), ColumnOfProject(id))
    ensures KeySet(doomed, ColumnKey) == OwnedColumns(columns, id)
  {
    var ks := KeysOf(doomed, ColumnKey);
    forall k | k in OwnedColumns(columns, id)
      ensures k in KeySet(doomed, ColumnKey)
    {
      StoredIsListed(columns, k);
      assert columns.entries[k] in doomed;
      var i :| 0 <= i < |doomed| && doomed[i] == columns.entries[k];
      assert ks[i] == k;
    }
    forall k | k in KeySet(doomed, ColumnKey)
      ensures k in OwnedColumns(columns, id)
    {
      var i :| 0 <= i < |ks| && ks[i] == k;
      assert doomed[i] in doomed;
      var j := ListedIsStored(columns, doomed[i]);
    }
  }

  /** The tasks `deleteProject` walks over are exactly the ones the project owns. */
  lemma OwnedTasksListed(tasks: JsMap<Task>, id: Id, doomed: seq<Task>)
    requires tasks.Valid()
    requires forall k :: k in tasks.entries ==> tasks.entries[k].id == k
    requires doomed == Seqs.Filter(tasks.Values(), OfProject(id))
    ensures KeySet(doomed, TaskKey) == OwnedTasks(tasks, id)
  {
    var ks := KeysOf(doomed, TaskKey);
    forall k | k in OwnedTasks(tasks, id)
      ensures k in KeySet(doomed, TaskKey)
    {
      StoredIsListed(tasks, k);
      assert tasks.entries[k] in doomed;
      var i :| 0 <= i < |doomed| && doomed[i] == tasks.entries[k];
      assert ks[i] == k;
    }
    forall k | k in KeySet(doomed, TaskKey)
      ensures k in OwnedTasks(tasks, id)
    {
      var i :| 0 <= i < |ks| && ks[i] == k;
      assert doomed[i] in doomed;
      var j := ListedIsStored(tasks, doomed[i]);
    }
  }
}
