/**
 What the store's operations promise when looked at together: seeding happens
 once, a new project comes with its three columns, deleting a project takes
 its columns and tasks along, a new task goes to the end of its column, and a
 move re-derives the task's status from the column it lands in.
 */
module StoreProperties {
  import opened JsCore
  import opened Ids
  import opened JsMaps
  import opened Records
  import opened Queries
  import opened Reorder
  import opened KanbanStore
  import Seqs

  // ---------------------------------------------------------------- seeding

  /** A second `initialize()` changes nothing, whatever the clock says. */
  lemma InitializeOnce(s: Store, first: Clock, second: Clock)
    ensures Initialize(Initialize(s, first), second) == Initialize(s, first)
  {
  }

  lemma SeededProjectList(n: nat, clock: Clock)
    ensures Seeded(n, clock).projects.Values() == [SeedProject(n, clock.now)]
  {
    SetNewValues(Empty<Project>(), IdOf(n), SeedProject(n, clock.now));
  }

  lemma SeededColumnList(n: nat, clock: Clock)
    ensures Seeded(n, clock).columns.Values() == SeedColumns(n, clock.now)
  {
    var columns := SeedColumns(n, clock.now);
    ConsecutiveIdsDistinct(KeysOf(columns, ColumnKey), n + 1);
    PutAllFresh(Empty(), columns, ColumnKey);
  }

  lemma SeededTaskList(n: nat, clock: Clock)
    ensures Seeded(n, clock).tasks.Values() == SeedTaskList(n, clock)
  {
    var tasks := SeedTaskList(n, clock);
    FreshTasksListed(tasks, n + 4);
    assert Seeded(n, clock).tasks == PutAll(Empty(), tasks, TaskKey);
  }

  /** Tasks with consecutive ids, put into an empty map, are listed as given. */
  lemma FreshTasksListed(tasks: seq<Task>, first: nat)
    requires ConsecutiveTasks(tasks, first)
    ensures PutAll(Empty(), tasks, TaskKey).Values() == tasks
  {
    ConsecutiveIdsDistinct(KeysOf(tasks, TaskKey), first);
    PutAllFresh(Empty(), tasks, TaskKey);
  }

  /**
   On a fresh store, seeding lists exactly the demo project, its three
   standard columns and the three demo tasks, in creation order.
   */
  lemma SeedingLists(s: Store, clock: Clock)
    requires !s.initialized
    ensures var r := Initialize(s, clock);
            && r.projects.Values() == [SeedProject(s.nextId, clock.now)]
            && r.columns.Values() == SeedColumns(s.nextId, clock.now)
            && r.tasks.Values() == SeedTaskList(s.nextId, clock)
  {
    SeededProjectList(s.nextId, clock);
    SeededColumnList(s.nextId, clock);
    SeededTaskList(s.nextId, clock);
  }

  /**
   Every seeded task sits in a seeded column of the demo project, and its
   status is the one that column's name maps to.
   */
  lemma SeededStatusesMatchColumns(n: nat, clock: Clock)
    ensures var r := Seeded(n, clock);
            forall k :: k in r.tasks.entries ==>
              && r.tasks.entries[k].projectId == IdOf(n)
              && r.tasks.entries[k].columnId.Some?
              && r.tasks.entries[k].columnId.value in r.columns.entries
              && IsStatus(r.tasks.entries[k].status)
              && ColumnNameFor(r.tasks.entries[k].status) == r.columns.entries[r.tasks.entries[k].columnId.value].name
  {
    var columns := SeedColumns(n, clock.now);
    var tasks := SeedTaskList(n, clock);
    SeedTasksPaired(n, clock);
    PairedStatuses(columns, tasks, IdOf(n));
    var r := Seeded(n, clock);
    assert r.columns == PutAll(Empty(), columns, ColumnKey);
    assert r.tasks == PutAll(Empty(), tasks, TaskKey);
  }

  /** The i-th seeded task sits in the i-th seeded column, with that column's status. */
  lemma SeedTasksPaired(n: nat, clock: Clock)
    ensures var columns := SeedColumns(n, clock.now);
            var tasks := SeedTaskList(n, clock);
            && |columns| == |tasks|
            && Distinct(KeysOf(columns, ColumnKey)) && Distinct(KeysOf(tasks, TaskKey))
            && forall i :: 0 <= i < |tasks| ==>
                 && tasks[i].projectId == IdOf(n)
                 && tasks[i].columnId == Some(columns[i].id)
                 && IsStatus(tasks[i].status)
                 && ColumnNameFor(tasks[i].status) == columns[i].name
  {
    var columns := SeedColumns(n, clock.now);
    var tasks := SeedTaskList(n, clock);
    ConsecutiveIdsDistinct(KeysOf(columns, ColumnKey), n + 1);
    ConsecutiveIdsDistinct(KeysOf(tasks, TaskKey), n + 4);
  }

  /**
   Columns and tasks stored pairwise, the i-th task in the i-th column with
   that column's status: every stored task finds its column and matches it.
   */
  lemma PairedStatuses(columns: seq<Column>, tasks: seq<Task>, projectId: Id)
    requires |columns| == |tasks|
    requires Distinct(KeysOf(columns, ColumnKey)) && Distinct(KeysOf(tasks, TaskKey))
    requires forall i :: 0 <= i < |tasks| ==>
               && tasks[i].projectId == projectId
               && tasks[i].columnId == Some(columns[i].id)
               && IsStatus(tasks[i].status)
               && ColumnNameFor(tasks[i].status) == columns[i].name
    ensures var cm := PutAll(Empty(), columns, ColumnKey);
            var tm := PutAll(Empty(), tasks, TaskKey);
            forall k :: k in tm.entries ==>
              && tm.entries[k].projectId == projectId
              && tm.entries[k].columnId.Some?
              && tm.entries[k].columnId.value in cm.entries
              && IsStatus(tm.entries[k].status)
              && ColumnNameFor(tm.entries[k].status) == cm.entries[tm.entries[k].columnId.value].name
  {
    var cm := PutAll(Empty(), columns, ColumnKey);
    var tm := PutAll(Empty(), tasks, TaskKey);
    forall k | k in tm.entries
      ensures tm.entries[k].projectId == projectId
      ensures tm.entries[k].columnId.Some?
      ensures tm.entries[k].columnId.value in cm.entries
      ensures IsStatus(tm.entries[k].status)
      ensures ColumnNameFor(tm.entries[k].status) == cm.entries[tm.entries[k].columnId.value].name
    {
      PairedEntry(columns, tasks, projectId, k);
    }
  }

  /** One stored task of `PairedStatuses`, found in the column stored beside it. */
  lemma PairedEntry(columns: seq<Column>, tasks: seq<Task>, projectId: Id, k: Id)
    requires |columns| == |tasks|
    requires Distinct(KeysOf(columns, ColumnKey)) && Distinct(KeysOf(tasks, TaskKey))
    requires forall i :: 0 <= i < |tasks| ==>
               && tasks[i].projectId == projectId
               && tasks[i].columnId == Some(columns[i].id)
               && IsStatus(tasks[i].status)
               && ColumnNameFor(tasks[i].status) == columns[i].name
    requires k in PutAll(Empty(), tasks, TaskKey).entries
    ensures var cm := PutAll(Empty(), columns, ColumnKey);
            var t := PutAll(Empty(), tasks, TaskKey).entries[k];
            && t.projectId == projectId
            && t.columnId.Some?
            && t.columnId.value in cm.entries
            && IsStatus(t.status)
            && ColumnNameFor(t.status) == cm.entries[t.columnId.value].name
  {
    PutAllEntries(Empty(), tasks, TaskKey);
    var i :| 0 <= i < |tasks| && KeysOf(tasks, TaskKey)[i] == k;
    PutAllAt(Empty(), tasks, TaskKey, i);
    PutAllAt(Empty(), columns, ColumnKey, i);
  }

  // ---------------------------------------------------------------- projects

  /**
   `createProject` appends one project and its three standard columns to the
   listings, leaves the tasks alone, and the new project's columns are
   exactly the three it was created with.
   */
  lemma CreateProjectAppends(s: Store, name: string, description: Option<string>, now: Time)
    requires Coherent(s)
    ensures var created := CreateProjectResult(s, name, description, now);
            var r := CreateProject(s, name, description, now);
            && r.projects.Values() == s.projects.Values() + [created.project]
            && r.columns.Values() == s.columns.Values() + created.columns
            && r.tasks == s.tasks
            && ColumnsOfProject(r.columns.Values(), created.project.id) == created.columns
  {
    var n := s.nextId;
    var created := CreateProjectResult(s, name, description, now);
    var r := CreateProject(s, name, description, now);
    IdOfFresh(n);
    SetNewValues(s.projects, created.project.id, created.project);
    NewColumnsAppended(s.columns, created.columns, n);
    assert r.columns == PutAll(s.columns, created.columns, ColumnKey);
    NoColumnOfNewProject(s);
    OwnColumnsAreNew(s.columns.Values(), created.columns, created.project.id);
  }

  /** Columns with ids not yet drawn are appended after the stored ones. */
  lemma NewColumnsAppended(m: JsMap<Column>, columns: seq<Column>, n: nat)
    requires m.Valid()
    requires forall k :: k in m.entries ==> IssuedBefore(k, n)
    requires |columns| == 3
    requires forall i :: 0 <= i < 3 ==> columns[i].id == IdOf(n + 1 + i)
    ensures PutAll(m, columns, ColumnKey).Values() == m.Values() + columns
  {
    ConsecutiveIdsDistinct(KeysOf(columns, ColumnKey), n + 1);
    forall i | 0 <= i < 3
      ensures ColumnKey(columns[i]) !in m.entries
    {
      IdOfNotIssued(n + 1 + i, n);
    }
    PutAllFresh(m, columns, ColumnKey);
  }

  /** No stored column belongs to the project id about to be drawn. */
  lemma NoColumnOfNewProject(s: Store)
    requires Coherent(s)
    ensures forall c :: c in s.columns.Values() ==> c.projectId != IdOf(s.nextId)
  {
    IdOfFresh(s.nextId);
    var vs := s.columns.Values();
    forall c | c in vs
      ensures c.projectId != IdOf(s.nextId)
    {
      var j :| 0 <= j < |vs| && vs[j] == c;
      assert c == s.columns.entries[s.columns.keys[j]];
    }
  }

  lemma OwnColumnsAreNew(before: seq<Column>, added: seq<Column>, id: Id)
    requires forall c :: c in before ==> c.projectId != id
    requires forall i :: 0 <= i < |added| ==> added[i].projectId == id
    ensures ColumnsOfProject(before + added, id) == added
  {
    var own := ColumnOfProject(id);
    Seqs.FilterConcat(before, added, own);
    Seqs.FilterNone(before, own);
    Seqs.FilterAll(added, own);
  }

  /**
   Right after `createProject`, `getProject` on the new id finds the project
   with three columns "A Fazer", "Em Progresso", "Concluído" in that order, all
   empty, as long as no stored task already names the new ids.
   */
  lemma CreateThenGetProject(s: Store, name: string, description: Option<string>, now: Time)
    requires Coherent(s)
    requires forall k :: k in s.tasks.entries ==>
               && s.tasks.entries[k].projectId != IdOf(s.nextId)
               && s.tasks.entries[k].columnId != Some(IdOf(s.nextId + 1))
               && s.tasks.entries[k].columnId != Some(IdOf(s.nextId + 2))
               && s.tasks.entries[k].columnId != Some(IdOf(s.nextId + 3))
    ensures var created := CreateProjectResult(s, name, description, now);
            var v := GetProject(CreateProject(s, name, description, now), created.project.id);
            && v.Some?
            && v.value.project == created.project
            && v.value.tasks == []
            && |v.value.columns| == 3
            && forall i :: 0 <= i < 3 ==>
                 v.value.columns[i] == ColumnView(created.columns[i], [])
  {
    var created := CreateProjectResult(s, name, description, now);
    var r := CreateProject(s, name, description, now);
    CreateProjectAppends(s, name, description, now);
    assert r.projects.entries[created.project.id] == created.project;
    UnrelatedTasks(s.tasks, created.project.id, created.columns);
    EmptyProjectView(r.projects, r.columns.Values(), r.tasks.Values(), created.project.id, created.columns);
  }

  /** Tasks that name neither the project nor any of its columns, as a listing. */
  lemma UnrelatedTasks(tasks: JsMap<Task>, id: Id, own: seq<Column>)
    requires tasks.Valid() && |own| == 3
    requires forall k :: k in tasks.entries ==>
               && tasks.entries[k].projectId != id
               && tasks.entries[k].columnId != Some(own[0].id)
               && tasks.entries[k].columnId != Some(own[1].id)
               && tasks.entries[k].columnId != Some(own[2].id)
    ensures forall t :: t in tasks.Values() ==>
              t.projectId != id && forall i :: 0 <= i < |own| ==> t.columnId != Some(own[i].id)
  {
    var vs := tasks.Values();
    forall t | t in vs
      ensures t.projectId != id && forall i :: 0 <= i < |own| ==> t.columnId != Some(own[i].id)
    {
      var j :| 0 <= j < |vs| && vs[j] == t;
      var k := tasks.keys[j];
      assert k in tasks.entries && t == tasks.entries[k];
      forall i | 0 <= i < |own|
        ensures t.columnId != Some(own[i].id)
      {
        assert i == 0 || i == 1 || i == 2;
      }
    }
  }

  /** A stored project none of whose columns holds a task, and which owns no task. */
  lemma EmptyProjectView(projects: JsMap<Project>, columns: seq<Column>, tasks: seq<Task>, id: Id, own: seq<Column>)
    requires id in projects.entries
    requires ColumnsOfProject(columns, id) == own
    requires forall t :: t in tasks ==>
               t.projectId != id && forall i :: 0 <= i < |own| ==> t.columnId != Some(own[i].id)
    ensures var v := ProjectView(projects, columns, tasks, id);
            && v.Some?
            && v.value.project == projects.entries[id]
            && v.value.tasks == []
            && |v.value.columns| == |own|
            && forall i :: 0 <= i < |own| ==> v.value.columns[i] == ColumnView(own[i], [])
  {
    Seqs.FilterNone(tasks, OfProject(id));
    forall i | 0 <= i < |own|
      ensures Board(own[i], tasks) == ColumnView(own[i], [])
    {
      Seqs.FilterNone(tasks, InColumn(own[i].id));
      var b := Board(own[i], tasks);
      assert multiset(b.tasks) == multiset{};
    }
  }

  /**
   `updateProject` on an unknown id returns nothing and changes nothing; on a
   known id it replaces the project in place, keeping the listing order.
   */
  lemma UpdateProjectInPlace(s: Store, id: Id, patch: ProjectPatch, now: Time)
    requires Coherent(s)
    ensures var r := UpdateProject(s, id, patch, now);
            && (id !in s.projects.entries ==> UpdateProjectResult(s, id, patch, now).None? && r == s)
            && r.projects.keys == s.projects.keys
            && r.columns == s.columns && r.tasks == s.tasks
            && (id in s.projects.entries ==>
                  r.projects.entries == s.projects.entries[id := PatchProject(s.projects.entries[id], patch, now)])
  {
  }

  /**
   `deleteProject(id)`: afterwards no project, column or task of `id` is left,
   and every other one is still listed, in its old order.
   */
  lemma DeleteProjectCascades(s: Store, id: Id)
    requires Coherent(s)
    ensures var r := DeleteProject(s, id);
            && id !in r.projects.entries
            && GetProject(r, id).None?
            && r.projects.Values() == Seqs.Filter(s.projects.Values(), (p: Project) => p.id != id)
            && r.columns.Values() == Seqs.Filter(s.columns.Values(), (c: Column) => c.projectId != id)
            && r.tasks.Values() == Seqs.Filter(s.tasks.Values(), (t: Task) => t.projectId != id)
            && TasksOfProject(r.tasks.Values(), id) == []
            && ColumnsOfProject(r.columns.Values(), id) == []
  {
    var r := DeleteProject(s, id);
    RemoveKeysValues(s.projects, {id}, (p: Project) => p.id != id);
    RemoveKeysValues(s.columns, OwnedColumns(s.columns, id), (c: Column) => c.projectId != id);
    RemoveKeysValues(s.tasks, OwnedTasks(s.tasks, id), (t: Task) => t.projectId != id);
    Seqs.FilterNone(r.tasks.Values(), OfProject(id));
    Seqs.FilterNone(r.columns.Values(), ColumnOfProject(id));
  }

  /**
   Deleting a project that is not stored changes nothing provided no task
   names it (`createTask` does not check `projectId`, so such tasks can exist,
   and those would be deleted).
   */
  lemma DeleteUnknownProject(s: Store, id: Id)
    requires Coherent(s)
    requires id !in s.projects.entries
    requires forall k :: k in s.tasks.entries ==> s.tasks.entries[k].projectId != id
    ensures DeleteProject(s, id) == s
  {
    DeleteAbsent(s.projects, id);
    assert OwnedColumns(s.columns, id) == {};
    assert OwnedTasks(s.tasks, id) == {};
    RemoveNothing(s.columns);
    RemoveNothing(s.tasks);
  }

  // ---------------------------------------------------------------- tasks

  /**
   `createTask` lists the new task last, under a fresh id, with status "todo";
   its `order` is the number of tasks already in the named column, and 0
   when no column is named.
   */
  lemma CreateTaskAppends(s: Store, data: NewTask, now: Time)
    requires Coherent(s)
    ensures var t := CreateTaskResult(s, data, now);
            var r := CreateTask(s, data, now);
            && t.id !in s.tasks.entries
            && r.tasks.Values() == s.tasks.Values() + [t]
            && GetTask(r, t.id) == Some(t)
            && r.projects == s.projects && r.columns == s.columns
            && t.status == Todo
            && (Truthy(data.columnId) ==> t.order == |TasksInColumn(s, data.columnId.value)|)
            && (!Truthy(data.columnId) ==> t.order == 0)
  {
    var t := CreateTaskResult(s, data, now);
    IdOfFresh(s.nextId);
    SetNewValues(s.tasks, t.id, t);
    if Truthy(data.columnId) {
      BucketOfColumn(s.tasks.Values(), data.columnId);
    } else {
      BucketOfNoColumnIsEmpty(s.tasks.Values(), data.columnId);
    }
  }

  /** The listed tasks of one column, in listing order. */
  function TasksInColumn(s: Store, columnId: Id): (ts: seq<Task>)
    requires s.tasks.Valid()
    ensures forall t :: t in ts <==> t in s.tasks.Values() && t.columnId == Some(columnId)
  {
    Seqs.Filter(s.tasks.Values(), InColumn(columnId))
  }

  /** Two tasks created one after the other in the same column get consecutive orders. */
  lemma ConsecutiveCreatesStack(s: Store, first: NewTask, second: NewTask, now1: Time, now2: Time)
    requires Coherent(s)
    requires Truthy(first.columnId) && second.columnId == first.columnId
    ensures var mid := CreateTask(s, first, now1);
            CreateTaskResult(mid, second, now2).order == CreateTaskResult(s, first, now1).order + 1
  {
    var t := CreateTaskResult(s, first, now1);
    IdOfFresh(s.nextId);
    SetNewValues(s.tasks, t.id, t);
    BucketGrows(s.tasks.Values(), t, first.columnId);
  }

  /**
   `updateTask` with a truthy `columnId` naming a stored column sets the
   status to that column's status; otherwise the status is kept. The task
   keeps its id, project and place in the listing.
   */
  lemma UpdateTaskStatusFollowsColumn(s: Store, id: Id, patch: TaskPatch, now: Time)
    requires Coherent(s) && id in s.tasks.entries
    ensures var r := UpdateTask(s, id, patch, now);
            var before := s.tasks.entries[id];
            var after := r.tasks.entries[id];
            && r.tasks.keys == s.tasks.keys
            && after.id == id && after.projectId == before.projectId
            && (Truthy(patch.columnId) && patch.columnId.value in s.columns.entries ==>
                  && IsStatus(after.status)
                  && ColumnNameFor(after.status) == s.columns.entries[patch.columnId.value].name
                  && after.columnId == patch.columnId)
            && (!Truthy(patch.columnId) || patch.columnId.value !in s.columns.entries ==>
                  after.status == before.status)
  {
  }

  /** `updateTask` on an unknown id returns nothing and changes nothing. */
  lemma UpdateUnknownTask(s: Store, id: Id, patch: TaskPatch, now: Time)
    requires Coherent(s) && id !in s.tasks.entries
    ensures UpdateTaskResult(s, id, patch, now).None?
    ensures UpdateTask(s, id, patch, now) == s
    ensures GetTask(s, id).None?
  {
  }

  /** `deleteTask` removes exactly that task from the listing. */
  lemma DeleteTaskRemoves(s: Store, id: Id)
    requires Coherent(s)
    ensures var r := DeleteTask(s, id);
            && GetTask(r, id).None?
            && r.tasks.Values() == Seqs.Filter(s.tasks.Values(), (t: Task) => t.id != id)
            && r.projects == s.projects && r.columns == s.columns
  {
    RemoveKeysValues(s.tasks, {id}, (t: Task) => t.id != id);
  }

  // ---------------------------------------------------------------- reorder

  /**
   A one-entry batch is the `updateTask` call with that entry's `columnId`
   and `order` (no stored column has the empty id).
   */
  lemma ReorderEntryIsUpdate(s: Store, p: Placement, now: Time)
    requires Coherent(s)
    ensures ReorderTasks(s, [p], now) ==
            UpdateTask(s, p.id, TaskPatch(None, None, None, None, None, Some(p.columnId), Some(p.order)), now)
  {
    assert forall k :: k in s.columns.entries ==> |k| > 0;
    assert [p][..0] == [];
    assert ApplyPlacements(s.tasks, s.columns, [p], now) == ApplyPlacement(s.tasks, s.columns, p, now);
    if p.id in s.tasks.entries {
      PlacementIsUpdate(s.tasks.entries[p.id], s.columns, p, now);
    }
  }

  /**
   After a batch, a task named in it is where its last entry put it, and if
   that column is stored its status is the one the column's name maps to.
   A task no entry names is untouched; no task is added or removed.
   */
  lemma ReorderPlacesTasks(s: Store, ps: seq<Placement>, now: Time, j: nat)
    requires Coherent(s) && j < |ps| && ps[j].id in s.tasks.entries
    requires forall i :: j < i < |ps| ==> ps[i].id != ps[j].id
    ensures var r := ReorderTasks(s, ps, now);
            var t := r.tasks.entries[ps[j].id];
            && r.tasks.entries.Keys == s.tasks.entries.Keys
            && t.columnId == Some(ps[j].columnId) && t.order == ps[j].order
            && SameContent(t, s.tasks.entries[ps[j].id])
            && (ps[j].columnId in s.columns.entries ==>
                  IsStatus(t.status) && ColumnNameFor(t.status) == s.columns.entries[ps[j].columnId].name)
  {
    LastEntryWins(s.tasks, s.columns, ps, now, j);
    ContentKept(s.tasks, s.columns, ps, now, ps[j].id);
  }

  lemma ReorderSkipsOthers(s: Store, ps: seq<Placement>, now: Time, k: Id)
    requires Coherent(s) && k in s.tasks.entries
    requires forall i :: 0 <= i < |ps| ==> ps[i].id != k
    ensures ReorderTasks(s, ps, now).tasks.entries[k] == s.tasks.entries[k]
  {
    UnnamedUnchanged(s.tasks, s.columns, ps, now, k);
  }
}
