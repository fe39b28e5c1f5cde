# Taskflow store, in Dafny

Taskflow is a kanban board: projects hold three columns ("A Fazer", "Em
Progresso", "Concluído"), and columns hold tasks ordered by an integer
`order`. Everything the web routes do goes through one in-memory store, the
`Database` class of `lib/db.ts`. That class has:

- three insertion-ordered `Map`s: projects, columns and tasks;
- a flag that makes the store seed itself once with a demo project, its three
  columns and three demo tasks;
- the operations `getProjects`, `getProject`, `createProject`,
  `updateProject`, `deleteProject`, `getTasks`, `getTask`, `createTask`,
  `updateTask`, `deleteTask` and `reorderTasks`.

The model comes in two layers.

- `KanbanStore` (store.dfy) describes the store as a value. The value holds
  the three maps, the seeding flag and the number of ids drawn so far. Each
  operation is a function from the state before to the state after, plus a
  function for what it returns.
- `Db.Database` (database.dfy) is the class itself. It keeps the same fields
  and updates them in place. `deleteProject`'s two cascades and
  `reorderTasks`' batch are `while` loops, as in the source. Each public
  method first runs `Initialize`, as every source method calls
  `this.initialize()`. Each method's postcondition says that the new state
  and the result are exactly what the `KanbanStore` functions give.

Supporting modules:

- `JsMaps` models a JavaScript `Map` as a key list in insertion order plus a
  finite map. `set` on a new key appends it, `set` on a known key keeps its
  place, `delete` removes it, and `values()` lists the entries in key order.
- `Records` holds the three record shapes and the column-name to status rule
  (`A Fazer`→`todo`, `Em Progresso`→`in_progress`, `Concluído`→`done`; any
  other name leaves the status alone). It also holds the field merges of the
  two update operations and the defaults of `createTask`.
- `Queries` holds the read-side shapes: project summaries, a project with its
  boards, and the task filter.
- `Sorting` is the stable sort by `order` that `getProject` applies to each
  column.
- `Reorder` is the batch move.
- `Ids` is the id generator, drawn from a counter.

`StoreProperties` (properties.dfy) states what the operations promise taken
together:

- seeding happens once;
- a new project gets its three columns, in order;
- deleting a project takes its columns and tasks along and keeps the rest in
  order;
- a new task goes to the end of its column's bucket;
- moving a task re-derives its status from the column it lands in;
- a task named in a reorder batch ends where its last entry puts it.

The invariant `KanbanStore.Coherent` holds of every reachable store:

- every entry is keyed by its own id, and every id was drawn before;
- every column belongs to a stored project and carries one of the three
  standard names;
- every task's status is one of the three known statuses;
- before seeding, all three maps are empty.

Every operation preserves `Coherent`.

Where the code and the written description of the system differ, the model
follows the code:

- `createTask` always sets status "todo" (`lib/db.ts:282`), even when the
  task is created straight into "Em Progresso" or "Concluído". The status is
  re-derived from the column only by `updateTask` and `reorderTasks`.
- `deleteProject` on an id with no stored project is not a no-op when some
  task names that id as its `projectId`. `createTask` does not check
  `projectId`, so such tasks can exist, and the cascade at
  `lib/db.ts:244-246` deletes them anyway. `StoreProperties.DeleteUnknownProject`
  states the no-op only under that side condition.
- A task created without a column compares its bucket against `null`
  (`lib/db.ts:273`). Under the declared types, stored tasks have `columnId`
  undefined or a string, never `null`. So such a task always gets `order` 0,
  however many column-less tasks exist.
- Priorities are described as one of low/medium/high, but the store accepts
  any string and substitutes "medium" only for a falsy one (`lib/db.ts:279`).

## Model

| member | source | states |
|---|---|---|
| JsCore.OrNull | lib/db.ts:273 | `columnId \|\| null` is `null` exactly when the column id is undefined or empty, and is the column id itself otherwise; never `undefined` |
| Ids.IdOfFresh | lib/db.ts:42-44 | the id of the n-th draw is non-empty, was not issued before draw n, and has been issued after it |
| Ids.IdOfInjective | lib/db.ts:42-44 | two draws never return the same id |
| JsMaps.JsMap.Get | lib/db.ts:154 | `Map.get` finds a value exactly for stored keys, and it is the stored one |
| JsMaps.JsMap.Set | lib/db.ts:186 | `Map.set` stores the value; a new key goes last in iteration order, a known key keeps its place |
| JsMaps.JsMap.Delete | lib/db.ts:240 | `Map.delete` removes exactly that key, and the remaining keys keep their order |
| JsMaps.WithoutIsFilter | lib/db.ts:240-246 | the key order left by deletions is the old key order filtered to the kept keys |
| JsMaps.JsMap.Values | lib/db.ts:142 | `values()` lists one entry per key, in insertion order |
| JsMaps.SetNewValues | lib/db.ts:186 | setting a key not yet stored appends its value to `values()` |
| JsMaps.PutAllFresh | lib/db.ts:215 | setting values with fresh, distinct keys one by one appends them to `values()` in that order |
| JsMaps.PutAllEntries | lib/db.ts:215 | after setting a list of values, every listed value is stored under its key and every other key keeps its value |
| JsMaps.DeleteEachRemovesKeys | lib/db.ts:241-246 | deleting a list of values one by one removes exactly the set of their keys |
| JsMaps.RemoveKeysValues | lib/db.ts:241-246 | after removing a key set, `values()` is the old listing filtered to the kept entries, in order |
| Records.StatusForColumn | lib/db.ts:310-318 | a standard column name yields the status that maps back to it; any other name keeps the current status |
| Records.StatusForOwnColumn | lib/db.ts:314-316 | the status rule inverts the status-to-column naming: the column named for a status yields that status |
| Records.DerivedStatus | lib/db.ts:341-347 | a found column with a standard name decides the status; a missing or unknown-named column keeps the current one |
| Records.StatusAfterUpdate | lib/db.ts:310-318 | `updateTask` changes the status only for a truthy `columnId` naming a stored column, and then to that column's status |
| Records.StandardColumns | lib/db.ts:188-213 | a new project gets exactly three columns: the standard names at orders 0, 1, 2, with the next three ids in turn, its project id and the creation time |
| Records.PatchProject | lib/db.ts:228-232 | `updateProject` keeps id and createdAt, sets updatedAt, and takes name and description from the patch when supplied, else from the old project |
| Records.PatchTask | lib/db.ts:320-325 | `updateTask` keeps id, project and createdAt, takes each supplied field from the patch, derives the status, and sets updatedAt |
| Records.PriorityOrDefault | lib/db.ts:279 | the priority is the supplied one when truthy, else "medium"; never empty |
| Records.BucketOfNoColumnIsEmpty | lib/db.ts:273 | without a truthy column id, no stored task matches the `null` bucket |
| Records.BucketOfColumn | lib/db.ts:273 | with a column id, the bucket count is the number of tasks in that column |
| Records.BucketGrows | lib/db.ts:273 | adding a task to a column grows that column's bucket count by one |
| Records.CreatedTask | lib/db.ts:275-288 | a new task takes title, description, dates, assignee, project and column from the request, priority defaulted, status "todo", order equal to the bucket count, both timestamps now |
| Sorting.SortByOrder | lib/db.ts:161-163 | the column's tasks come out sorted ascending by `order` and are a permutation of the input |
| Sorting.SortStable | lib/db.ts:163 | the sort is stable: tasks with equal `order` keep their listing order |
| Queries.TasksOfProject | lib/db.ts:144 | a project's task list holds exactly the tasks whose `projectId` is that project |
| Queries.ColumnsOfProject | lib/db.ts:145 | a project's column list holds exactly the columns whose `projectId` is that project |
| Queries.Summaries | lib/db.ts:140-150 | `getProjects` returns one entry per project in listing order, each with its own tasks and columns and a count equal to its task list's length |
| Queries.Board | lib/db.ts:157-164 | a column's board holds exactly the tasks in that column, sorted by `order`, ties in listing order |
| Queries.ProjectView | lib/db.ts:152-171 | `getProject` returns nothing for an unknown id; otherwise the project, its tasks, and its columns in listing order, each with its board |
| Queries.TasksView | lib/db.ts:249-253 | `getTasks` returns every task for a falsy project id, else exactly that project's tasks |
| Reorder.Placed | lib/db.ts:349-355 | a placed task takes the entry's column and order, re-derives its status, refreshes updatedAt, and keeps every other field |
| Reorder.ApplyPlacementAt | lib/db.ts:338-356 | one entry changes only the named task, and only when it is stored; every other entry keeps its value |
| Reorder.ApplyPlacements | lib/db.ts:336-358 | a batch neither adds nor removes tasks, and the listing order is unchanged |
| Reorder.UnnamedUnchanged | lib/db.ts:338-340 | a task that no entry of the batch names is left as it was |
| Reorder.LastEntryWins | lib/db.ts:338-356 | a task named in the batch ends with the column and order of the last entry that names it, and its status is derived from that column |
| Reorder.ContentKept | lib/db.ts:349-355 | a batch keeps each task's id, title, description, priority, due date, assignee, project and createdAt |
| Reorder.StatusesStayKnown | lib/db.ts:341-347 | if every stored status is one of the three known statuses, it still is after a batch |
| Reorder.PlacementIsUpdate | lib/db.ts:339-355 | placing a task is the same as `updateTask` with that column id and order, provided the column id is not empty |
| KanbanStore.Unseeded | lib/db.ts:36-40 | a new store is empty and unseeded, and satisfies the store invariant |
| KanbanStore.ConsecutiveIdsDistinct | lib/db.ts:42-44 | ids drawn one after another are pairwise distinct |
| KanbanStore.SeedColumns | lib/db.ts:62-88 | the demo project's seed makes three columns |
| KanbanStore.SeedTasks | lib/db.ts:91-134 | the three demo tasks take the next three ids, belong to the demo project, sit one in each demo column at order 0, and carry the status that column's name maps to |
| KanbanStore.SeedColumnsEntries | lib/db.ts:62-89 | after seeding, each stored column is keyed by its own id, belongs to the demo project and has a standard name |
| KanbanStore.SeedTasksEntries | lib/db.ts:91-135 | after seeding, each stored task is keyed by its own id and has a known status |
| KanbanStore.Seeded | lib/db.ts:46-138 | seeding draws seven ids and leaves the store marked initialized |
| KanbanStore.SeededCoherent | lib/db.ts:46-138 | the seeded store satisfies the store invariant |
| KanbanStore.Initialize | lib/db.ts:46-47 | `initialize` returns a seeded store unchanged; on first use it produces the seeded store, drawing seven ids; it preserves the invariant |
| KanbanStore.CreateProjectCoherent | lib/db.ts:173-221 | `createProject` preserves the store invariant |
| KanbanStore.IsCreatedProject | lib/db.ts:186-215 | setting the new project and then its three columns is exactly `createProject` |
| KanbanStore.UpdateProjectResult | lib/db.ts:223-236 | `updateProject` returns nothing exactly for an unknown id; otherwise the patched project |
| KanbanStore.UpdateProjectCoherent | lib/db.ts:223-236 | `updateProject` preserves the store invariant |
| KanbanStore.DeleteProjectCoherent | lib/db.ts:238-247 | `deleteProject` preserves the store invariant; no column is left pointing at the deleted project |
| KanbanStore.CreateTaskCoherent | lib/db.ts:260-292 | `createTask` preserves the store invariant |
| KanbanStore.IsCreatedTask | lib/db.ts:290 | setting the new task under its fresh id is exactly `createTask` |
| KanbanStore.UpdateTaskResult | lib/db.ts:305-328 | `updateTask` returns nothing exactly for an unknown id; otherwise the patched task |
| KanbanStore.UpdateTaskCoherent | lib/db.ts:294-329 | `updateTask` preserves the store invariant |
| KanbanStore.DeleteTaskCoherent | lib/db.ts:331-334 | `deleteTask` preserves the store invariant |
| KanbanStore.ReorderTasksCoherent | lib/db.ts:336-358 | `reorderTasks` preserves the store invariant |
| StoreProperties.InitializeOnce | lib/db.ts:46-47 | calling `initialize` a second time changes nothing, whatever the clock reads |
| StoreProperties.SeededProjectList | lib/db.ts:49-60 | after seeding, exactly the demo project is listed |
| StoreProperties.SeededColumnList | lib/db.ts:62-89 | after seeding, exactly the three demo columns are listed, in order |
| StoreProperties.SeededTaskList | lib/db.ts:91-135 | after seeding, exactly the three demo tasks are listed, in order |
| StoreProperties.SeedingLists | lib/db.ts:46-138 | first use of a fresh store lists exactly the demo project, its three columns and its three tasks |
| StoreProperties.SeededStatusesMatchColumns | lib/db.ts:91-135 | every seeded task sits in a stored column of the demo project, and its status is the one that column's name maps to |
| StoreProperties.SeedTasksPaired | lib/db.ts:62-134 | the i-th demo task sits in the i-th demo column, with that column's status |
| StoreProperties.CreateProjectAppends | lib/db.ts:173-221 | `createProject` appends one project and its three columns to the listings, leaves tasks alone, and the new project's columns are exactly those three |
| StoreProperties.NewColumnsAppended | lib/db.ts:215 | columns with newly drawn ids are listed after the stored ones |
| StoreProperties.NoColumnOfNewProject | lib/db.ts:175 | no stored column already belongs to the project id about to be drawn |
| StoreProperties.CreateThenGetProject | lib/db.ts:152-221 | right after `createProject`, `getProject` finds the project with no tasks and three empty boards in the standard order, provided no stored task already names the new project id or one of the three new column ids (`createTask` does not check them) |
| StoreProperties.EmptyProjectView | lib/db.ts:152-171 | a stored project whose columns hold no task and which owns no task shows empty boards |
| StoreProperties.UpdateProjectInPlace | lib/db.ts:223-236 | `updateProject` on an unknown id changes nothing; on a known id it replaces that project in place and touches nothing else |
| StoreProperties.DeleteProjectCascades | lib/db.ts:238-247 | after `deleteProject`, the project is gone and none of its columns or tasks is left; every other entry is still listed, in its old order |
| StoreProperties.DeleteUnknownProject | lib/db.ts:238-247 | deleting an unstored project id that no task names changes nothing |
| StoreProperties.CreateTaskAppends | lib/db.ts:260-292 | `createTask` lists the new task last under a fresh id, with status "todo", order equal to its column's task count, 0 without a column |
| StoreProperties.TasksInColumn | lib/db.ts:273 | a column's tasks are exactly the listed tasks whose `columnId` is that column |
| StoreProperties.ConsecutiveCreatesStack | lib/db.ts:273-285 | two tasks created one after the other into the same column get consecutive orders |
| StoreProperties.UpdateTaskStatusFollowsColumn | lib/db.ts:306-328 | `updateTask` moving a task to a stored column sets that column's status; otherwise the status is kept; id, project and listing position are kept |
| StoreProperties.UpdateUnknownTask | lib/db.ts:307-308 | `updateTask` on an unknown id returns nothing and changes nothing |
| StoreProperties.DeleteTaskRemoves | lib/db.ts:331-334 | `deleteTask` removes exactly that task from the listing and nothing else |
| StoreProperties.ReorderEntryIsUpdate | lib/db.ts:336-358 | a one-entry batch is the `updateTask` call with that entry's column and order |
| StoreProperties.ReorderPlacesTasks | lib/db.ts:336-358 | after a batch, a named task sits where its last entry put it, with the status of a stored target column; no task is added or removed |
| StoreProperties.ReorderSkipsOthers | lib/db.ts:338-340 | a task that no entry names is untouched by the batch |
| Db.Database.constructor | lib/db.ts:36-40 | a new `Database` holds three empty maps and is not yet seeded |
| Db.Database.GenerateId | lib/db.ts:42-44 | each call returns the next fresh id and changes nothing else |
| Db.Database.DrawStandardColumns | lib/db.ts:188-213 | drawing three ids builds the three standard columns of a project |
| Db.Database.StoreColumns | lib/db.ts:215 | the loop sets each column under its id, in order |
| Db.Database.StoreTasks | lib/db.ts:135 | the loop sets each task under its id, in order |
| Db.Database.Initialize | lib/db.ts:46-138 | `initialize` seeds an unseeded store and leaves a seeded one alone |
| Db.Database.Seed | lib/db.ts:49-137 | the seeding code builds exactly the seeded store and sets the flag |
| Db.Database.SeedBoard | lib/db.ts:49-89 | seeding stores the demo project and its three columns |
| Db.Database.DrawSeedTasks | lib/db.ts:91-134 | the three demo tasks are built with the next three ids |
| Db.Database.SeedTaskEntries | lib/db.ts:91-135 | seeding stores the three demo tasks |
| Db.Database.GetProjects | lib/db.ts:140-150 | `getProjects` seeds if needed and returns the project summaries of the store |
| Db.Database.GetProject | lib/db.ts:152-171 | `getProject` seeds if needed and returns the project view of the store |
| Db.Database.CreateProject | lib/db.ts:173-221 | `createProject` seeds if needed, then returns and stores the new project and its columns |
| Db.Database.CreateSeededProject | lib/db.ts:175-220 | on a seeded store, the method's steps yield exactly `createProject`'s new state and result |
| Db.Database.AddProject | lib/db.ts:175-215 | draws the project id and three column ids, sets the project, then its columns |
| Db.Database.UpdateProject | lib/db.ts:223-236 | `updateProject` seeds if needed, then returns and stores the patched project, or nothing for an unknown id |
| Db.Database.UpdateSeededProject | lib/db.ts:225-235 | on a seeded store, the lookup, merge and set yield exactly `updateProject`'s new state and result |
| Db.Database.DeleteProject | lib/db.ts:238-247 | `deleteProject` seeds if needed, then deletes the project and cascades |
| Db.Database.DeleteSeededProject | lib/db.ts:240-246 | on a seeded store, deleting the project and then the filtered columns and tasks one by one is exactly `deleteProject` |
| Db.Database.DeleteColumns | lib/db.ts:241-243 | the loop deletes each listed column by its id |
| Db.Database.DeleteTasks | lib/db.ts:244-246 | the loop deletes each listed task by its id |
| Db.Database.GetTasks | lib/db.ts:249-253 | `getTasks` seeds if needed and returns the filtered task listing |
| Db.Database.GetTask | lib/db.ts:255-258 | `getTask` seeds if needed and returns the stored task, or nothing |
| Db.Database.CreateTask | lib/db.ts:260-292 | `createTask` seeds if needed, then returns and stores the new task |
| Db.Database.CreateSeededTask | lib/db.ts:270-291 | on a seeded store, drawing the id, counting the bucket and setting the task is exactly `createTask` |
| Db.Database.UpdateTask | lib/db.ts:294-329 | `updateTask` seeds if needed, then returns and stores the patched task, or nothing for an unknown id |
| Db.Database.UpdateSeededTask | lib/db.ts:307-328 | on a seeded store, the source's status if-chain and field merge yield exactly `updateTask`'s new state and result |
| Db.Database.DeleteTask | lib/db.ts:331-334 | `deleteTask` seeds if needed, then deletes the task |
| Db.Database.DeleteSeededTask | lib/db.ts:333 | on a seeded store, deleting the key is exactly `deleteTask` |
| Db.Database.ReorderTasks | lib/db.ts:336-358 | `reorderTasks` seeds if needed, then applies the batch |
| Db.Database.ReorderSeededTasks | lib/db.ts:338-357 | on a seeded store, the loop over the entries is exactly the batch function |
| Db.Database.Place | lib/db.ts:339-356 | one entry: the source's status if-chain and the set are exactly the model's placement |
| Db.IsDeletedProject | lib/db.ts:238-247 | deleting the project and then the filtered columns and tasks one by one gives `deleteProject`'s state, which is coherent |
| Db.OwnedColumnsListed | lib/db.ts:241-243 | the filtered column listing holds exactly the keys of the project's columns |
| Db.OwnedTasksListed | lib/db.ts:244-246 | the filtered task listing holds exactly the keys of the project's tasks |

## Left out

- Ids: the source builds an id from `Date.now()` and `Math.random()`, so two ids can in principle collide. The model draws ids from a counter, so they are always distinct. Freshness is therefore a property of the model, not a guarantee of the source.
- Time: each operation reads one clock value (`Clock`), passed in as a parameter. The source calls `new Date()` once per update inside a `reorderTasks` batch. The model stamps every entry of a batch with the same time.
- Db.Database.Initialize: the seed's due dates (now + 2 days, now + 3 days) arrive as values of the clock parameter; the date arithmetic itself is not modelled.
- Timestamps are opaque strings; their ISO format and ordering are not modelled.
- JavaScript `null` and explicitly `undefined` keys inside update objects, and a `null` `columnId` or `projectId` given to `createTask` (stored as given at `lib/db.ts:283-284` and then matched by the `=== null` bucket test at `lib/db.ts:273`), are not modelled. An absent field is `None`. Spreading `...data` with a key present but set to `undefined` would overwrite a field with `undefined`; the model treats that key as absent.
- The extra fields `tasks`, `columns` and `_count` on the `Project` interface appear only in returned views (`Queries.ProjectSummary`, `Queries.ProjectDetail`, `KanbanStore.CreatedProject`), never in stored projects.
- `order` is a JavaScript number, compared by `a.order - b.order` at `lib/db.ts:163`; the model uses unbounded integers, so fractional values, `NaN`, `Infinity` and floating-point precision loss are not modelled.
- Column `order` and the `updatedAt` of columns are stored but never changed by any operation; nothing about them is proved beyond the initial values.
- The HTTP routes, request validation (missing title or name), the React UI, and the progress bar on project cards are outside the store and are not part of this model.
- Concurrency and persistence: the store is a single in-process object that is lost on restart. The module-level singleton `db` is modelled as one `Database` object.
- Aliasing: the source's spreads copy only the top level of a record, so a returned view shares nested objects with the store. The model returns values, so aliasing between a returned object and a stored one is not modelled.
