/**
 The read side of the store: the listings `getProjects`, `getProject` and
 `getTasks` build with `filter`, `map` and `sort` over the maps' values.
 */
module Queries {
  import opened JsCore
  import opened JsMaps
  import opened Records
  import opened Sorting
  import Seqs

  function OfProject(projectId: Id): Task -> bool
  {
    (t: Task) => t.projectId == projectId
  }

  function ColumnOfProject(projectId: Id): Column -> bool
  {
    (c: Column) => c.projectId == projectId
  }

  /** `tasks.filter((t) => t.projectId === projectId)`. */
  function TasksOfProject(tasks: seq<Task>, projectId: Id): (r: seq<Task>)
    ensures forall t :: t in r <==> t in tasks && t.projectId == projectId
  {
    Seqs.Filter(tasks, OfProject(projectId))
  }

  /** `columns.filter((c) => c.projectId === projectId)`. */
  function ColumnsOfProject(columns: seq<Column>, projectId: Id): (r: seq<Column>)
    ensures forall c :: c in r <==> c in columns && c.projectId == projectId
  {
    Seqs.Filter(columns, ColumnOfProject(projectId))
  }

  /** A project as `getProjects` lists it. */
  datatype ProjectSummary = ProjectSummary(
    project: Project,
    tasks: seq<Task>,
    columns: seq<Column>,
    taskCount: nat)

  /**
   `getProjects`: one entry per project, in the projects' order, each with its
   own tasks and columns and a task count equal to the length of its task list.
   */
  function Summaries(projects: seq<Project>, columns: seq<Column>, tasks: seq<Task>): (r: seq<ProjectSummary>)
    ensures |r| == |projects|
    ensures forall i :: 0 <= i < |r| ==>
              && r[i].project == projects[i]
              && r[i].tasks == TasksOfProject(tasks, projects[i].id)
              && r[i].columns == ColumnsOfProject(columns, projects[i].id)
              && r[i].taskCount == |r[i].tasks|
  {
    seq(|projects|, i requires 0 <= i < |projects| =>
      var own := TasksOfProject(tasks, projects[i].id);
      ProjectSummary(projects[i], own, ColumnsOfProject(columns, projects[i].id), |own|))
  }

  /** A column as `getProject` returns it, carrying its tasks. */
  datatype ColumnView = ColumnView(column: Column, tasks: seq<Task>)

  /** A project as `getProject` returns it. */
  datatype ProjectDetail = ProjectDetail(project: Project, tasks: seq<Task>, columns: seq<ColumnView>)

  /**
   A column with exactly the tasks whose `columnId` is the column's id, sorted
   ascending by `order`, ties in listing order.
   */
  function Board(c: Column, tasks: seq<Task>): (v: ColumnView)
    ensures v.column == c
    ensures SortedByOrder(v.tasks)
    ensures multiset(v.tasks) == multiset(Seqs.Filter(tasks, InColumn(c.id)))
    ensures forall t :: t in v.tasks <==> t in tasks && t.columnId == Some(c.id)
    ensures forall k :: Seqs.Filter(v.tasks, HasOrder(k)) == Seqs.Filter(Seqs.Filter(tasks, InColumn(c.id)), HasOrder(k))
  {
    var mine := Seqs.Filter(tasks, InColumn(c.id));
    var sorted := SortByOrder(mine);
    assert forall t :: t in sorted <==> t in multiset(mine);
    forall k ensures Seqs.Filter(sorted, HasOrder(k)) == Seqs.Filter(mine, HasOrder(k)) {
      SortStable(mine, k);
    }
    ColumnView(c, sorted)
  }

  /**
   `getProject(id)`: nothing for an unknown id; otherwise the project, its
   tasks, and its columns in listing order, each carrying its sorted tasks.
   */
  function ProjectView(projects: JsMap<Project>, columns: seq<Column>, tasks: seq<Task>, id: Id): (r: Option<ProjectDetail>)
    ensures r.None? <==> id !in projects.entries
    ensures r.Some? ==>
              && r.value.project == projects.entries[id]
              && r.value.tasks == TasksOfProject(tasks, id)
              && |r.value.columns| == |ColumnsOfProject(columns, id)|
              && forall i :: 0 <= i < |r.value.columns| ==>
                   r.value.columns[i] == Board(ColumnsOfProject(columns, id)[i], tasks)
  {
    match projects.Get(id)
    case None => None
    case Some(p) =>
      var own := ColumnsOfProject(columns, id);
      Some(ProjectDetail(p, TasksOfProject(tasks, id),
        seq(|own|, i requires 0 <= i < |own| => Board(own[i], tasks))))
  }

  /** `getTasks(projectId)`: every task for a falsy project id, else that project's tasks. */
  function TasksView(tasks: seq<Task>, projectId: Option<Id>): (r: seq<Task>)
    ensures !Truthy(projectId) ==> r == tasks
    ensures Truthy(projectId) ==> r == TasksOfProject(tasks, projectId.value)
    ensures forall t :: t in r <==> t in tasks && (Truthy(projectId) ==> t.projectId == projectId.value)
  {
    if Truthy(projectId) then TasksOfProject(tasks, projectId.value) else tasks
  }
}
