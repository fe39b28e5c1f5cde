/**
 The store's three record shapes, the rule that derives a task's status from
 its column's name, and the field-by-field merges and defaults that the
 create and update operations apply.
 */
module Records {
  import opened JsCore
  import opened Ids
  import opened JsMaps
  import Seqs

  datatype Project = Project(
    id: Id,
    name: string,
    description: Option<string>,
    createdAt: Time,
    updatedAt: Time)

  datatype Column = Column(
    id: Id,
    name: string,
    order: int,
    projectId: Id,
    createdAt: Time,
    updatedAt: Time)

  datatype Task = Task(
    id: Id,
    title: string,
    description: Option<string>,
    priority: string,
    dueDate: Option<string>,
    assignee: Option<string>,
    status: string,
    columnId: Option<Id>,
    projectId: Id,
    order: int,
    createdAt: Time,
    updatedAt: Time)

  /** The three columns every project is created with, left to right. */
  const TodoColumn: string := "A Fazer"
  const InProgressColumn: string := "Em Progresso"
  const DoneColumn: string := "Concluído"
  const StandardColumnNames: seq<string> := [TodoColumn, InProgressColumn, DoneColumn]

  const Todo: string := "todo"
  const InProgress: string := "in_progress"
  const Done: string := "done"

  const DefaultPriority: string := "medium"

  predicate IsStandardColumnName(name: string)
  {
    name in StandardColumnNames
  }

  predicate IsStatus(s: string)
  {
    s == Todo || s == InProgress || s == Done
  }

  /** The standard column a status belongs to. */
  function ColumnNameFor(status: string): (name: string)
    requires IsStatus(status)
    ensures IsStandardColumnName(name)
  {
    if status == Todo then TodoColumn else if status == InProgress then InProgressColumn else DoneColumn
  }

  /**
   The status a task gets when it is placed in a column named `name`: the
   status that belongs to that column, or, for a name that is none of the
   three standard ones, the task's `current` status unchanged.
   */
  function StatusForColumn(name: string, current: string): (status: string)
    ensures IsStandardColumnName(name) ==> IsStatus(status) && ColumnNameFor(status) == name
    ensures !IsStandardColumnName(name) ==> status == current
  {
    if name == TodoColumn then Todo
    else if name == InProgressColumn then InProgress
    else if name == DoneColumn then Done
    else current
  }

  /** Every status is reached from exactly its own column, whatever the task's status was. */
  lemma StatusForOwnColumn(status: string, current: string)
    requires IsStatus(status)
    ensures StatusForColumn(ColumnNameFor(status), current) == status
  {
  }

  /** The status after a move to `column` as looked up; a missing column keeps `current`. */
  function DerivedStatus(column: Option<Column>, current: string): (status: string)
    ensures column.Some? && IsStandardColumnName(column.value.name) ==>
              IsStatus(status) && ColumnNameFor(status) == column.value.name
    ensures column.None? || !IsStandardColumnName(column.value.name) ==> status == current
  {
    match column
    case None => current
    case Some(c) => StatusForColumn(c.name, current)
  }

  /**
   The status `updateTask` computes: only a truthy `columnId` triggers the
   lookup of the target column.
   */
  function StatusAfterUpdate(columns: JsMap<Column>, columnId: Option<Id>, current: string): (status: string)
    ensures !Truthy(columnId) || columnId.value !in columns.entries ==> status == current
    ensures Truthy(columnId) && columnId.value in columns.entries ==>
              status == StatusForColumn(columns.entries[columnId.value].name, current)
  {
    if Truthy(columnId) then DerivedStatus(columns.Get(columnId.value), current) else current
  }

  /** The three columns `createProject` adds, drawing ids `firstId`, `firstId + 1`, `firstId + 2`. */
  function StandardColumns(projectId: Id, firstId: nat, now: Time): (cs: seq<Column>)
    ensures |cs| == |StandardColumnNames|
    ensures forall i :: 0 <= i < |cs| ==>
              && cs[i].id == IdOf(firstId + i)
              && cs[i].name == StandardColumnNames[i]
              && cs[i].order == i
              && cs[i].projectId == projectId
              && cs[i].createdAt == now && cs[i].updatedAt == now
  {
    seq(|StandardColumnNames|, i requires 0 <= i < |StandardColumnNames| =>
      Column(IdOf(firstId + i), StandardColumnNames[i], i, projectId, now, now))
  }

  function ColumnKey(c: Column): Id
  {
    c.id
  }

  function TaskKey(t: Task): Id
  {
    t.id
  }

  /** The fields an `updateProject` call may carry; `None` is a field left out. */
  datatype ProjectPatch = ProjectPatch(name: Option<string>, description: Option<string>)

  /** `{ ...project, ...data, updatedAt }`: supplied fields overwrite, the others stay. */
  function PatchProject(p: Project, patch: ProjectPatch, now: Time): (q: Project)
    ensures q.id == p.id && q.createdAt == p.createdAt && q.updatedAt == now
    ensures patch.name.Some? ==> q.name == patch.name.value
    ensures patch.name.None? ==> q.name == p.name
    ensures patch.description.Some? ==> q.description == patch.description
    ensures patch.description.None? ==> q.description == p.description
  {
    p.(name := if patch.name.Some? then patch.name.value else p.name,
       description := if patch.description.Some? then patch.description else p.description,
       updatedAt := now)
  }

  /** The fields an `updateTask` call may carry; `None` is a field left out. */
  datatype TaskPatch = TaskPatch(
    title: Option<string>,
    description: Option<string>,
    priority: Option<string>,
    dueDate: Option<string>,
    assignee: Option<string>,
    columnId: Option<Id>,
    order: Option<int>)

  function Override<T>(supplied: Option<T>, current: T): T
  {
    if supplied.Some? then supplied.value else current
  }

  function OverrideOptional<T>(supplied: Option<T>, current: Option<T>): Option<T>
  {
    if supplied.Some? then supplied else current
  }

  /**
   `{ ...task, ...data, status, updatedAt }`: supplied fields overwrite, the
   status follows the target column when a truthy `columnId` is supplied, and
   the identity, project and creation time never change.
   */
  function PatchTask(t: Task, patch: TaskPatch, columns: JsMap<Column>, now: Time): (u: Task)
    ensures u.id == t.id && u.projectId == t.projectId && u.createdAt == t.createdAt
    ensures u.updatedAt == now
    ensures u.title == Override(patch.title, t.title)
    ensures u.description == OverrideOptional(patch.description, t.description)
    ensures u.priority == Override(patch.priority, t.priority)
    ensures u.dueDate == OverrideOptional(patch.dueDate, t.dueDate)
    ensures u.assignee == OverrideOptional(patch.assignee, t.assignee)
    ensures u.columnId == OverrideOptional(patch.columnId, t.columnId)
    ensures u.order == Override(patch.order, t.order)
    ensures u.status == StatusAfterUpdate(columns, patch.columnId, t.status)
  {
    t.(title := Override(patch.title, t.title),
       description := OverrideOptional(patch.description, t.description),
       priority := Override(patch.priority, t.priority),
       dueDate := OverrideOptional(patch.dueDate, t.dueDate),
       assignee := OverrideOptional(patch.assignee, t.assignee),
       columnId := OverrideOptional(patch.columnId, t.columnId),
       order := Override(patch.order, t.order),
       status := StatusAfterUpdate(columns, patch.columnId, t.status),
       updatedAt := now)
  }

  /** The fields a `createTask` call carries. */
  datatype NewTask = NewTask(
    title: string,
    description: Option<string>,
    priority: Option<string>,
    dueDate: Option<string>,
    assignee: Option<string>,
    projectId: Id,
    columnId: Option<Id>)

  /** `data.priority || "medium"`. */
  function PriorityOrDefault(priority: Option<string>): (p: string)
    ensures p != ""
    ensures Truthy(priority) ==> p == priority.value
    ensures !Truthy(priority) ==> p == DefaultPriority
  {
    if Truthy(priority) then priority.value else DefaultPriority
  }

  /** The tasks placed in the column with id `columnId` (`t.columnId === columnId`). */
  function InColumn(columnId: Id): Task -> bool
  {
    (t: Task) => t.columnId == Some(columnId)
  }

  /** `t => t.columnId === v` for a JavaScript value `v`. */
  function ColumnIdIs(v: JsValue): Task -> bool
  {
    (t: Task) => AsJs(t.columnId) == v
  }

  /** `tasks.filter((t) => t.columnId === (columnId || null)).length`. */
  function BucketSize(tasks: seq<Task>, columnId: Option<Id>): nat
  {
    |Seqs.Filter(tasks, ColumnIdIs(OrNull(columnId)))|
  }

  /**
   Without a truthy column id the count compares stored column ids with
   `null`, which no stored task holds, so it is zero whatever the tasks are.
   */
  lemma BucketOfNoColumnIsEmpty(tasks: seq<Task>, columnId: Option<Id>)
    requires !Truthy(columnId)
    ensures BucketSize(tasks, columnId) == 0
  {
    Seqs.FilterNone(tasks, ColumnIdIs(OrNull(columnId)));
  }

  /** With a truthy column id the count is the number of tasks in that column. */
  lemma BucketOfColumn(tasks: seq<Task>, columnId: Option<Id>)
    requires Truthy(columnId)
    ensures BucketSize(tasks, columnId) == |Seqs.Filter(tasks, InColumn(columnId.value))|
  {
    Seqs.FilterAgree(tasks, ColumnIdIs(OrNull(columnId)), InColumn(columnId.value));
  }

  /** A task appended to a column's bucket makes the next count one larger. */
  lemma BucketGrows(tasks: seq<Task>, t: Task, columnId: Option<Id>)
    requires Truthy(columnId) && t.columnId == columnId
    ensures BucketSize(tasks + [t], columnId) == BucketSize(tasks, columnId) + 1
  {
    Seqs.FilterConcat(tasks, [t], ColumnIdIs(OrNull(columnId)));
  }

  /** The task `createTask` stores: defaults filled in, status "todo", `order` the bucket size. */
  function CreatedTask(id: Id, data: NewTask, existing: seq<Task>, now: Time): (t: Task)
    ensures t.id == id && t.projectId == data.projectId && t.columnId == data.columnId
    ensures t.title == data.title && t.description == data.description
    ensures t.dueDate == data.dueDate && t.assignee == data.assignee
    ensures t.priority == PriorityOrDefault(data.priority)
    ensures t.status == Todo
    ensures t.order == BucketSize(existing, data.columnId)
    ensures t.createdAt == now && t.updatedAt == now
  {
    Task(id, data.title, data.description, PriorityOrDefault(data.priority), data.dueDate, data.assignee,
         Todo, data.columnId, data.projectId, BucketSize(existing, data.columnId), now, now)
  }
}
