/**
 `reorderTasks`: a batch of `{ id, columnId, order }` entries applied one
 after another. An entry for an unknown task is skipped; an entry for a known
 task moves it, renumbers it and re-derives its status from the target
 column's name.
 */
module Reorder {
  import opened JsCore
  import opened JsMaps
  import opened Records

  /** One entry of the batch. */
  datatype Placement = Placement(id: Id, columnId: Id, order: int)

  /** The task as one entry leaves it. */
  function Placed(t: Task, columns: JsMap<Column>, p: Placement, now: Time): (u: Task)
    ensures u.columnId == Some(p.columnId) && u.order == p.order && u.updatedAt == now
    ensures u.status == DerivedStatus(columns.Get(p.columnId), t.status)
    ensures SameContent(u, t)
  {
    t.(columnId := Some(p.columnId), order := p.order,
       status := DerivedStatus(columns.Get(p.columnId), t.status), updatedAt := now)
  }

  /** Everything but placement, status and update time is the same. */
  predicate SameContent(a: Task, b: Task)
  {
    && a.id == b.id && a.title == b.title && a.description == b.description
    && a.priority == b.priority && a.dueDate == b.dueDate && a.assignee == b.assignee
    && a.projectId == b.projectId && a.createdAt == b.createdAt
  }

  /** One step of the `forEach`. */
  function ApplyPlacement(tasks: JsMap<Task>, columns: JsMap<Column>, p: Placement, now: Time): (r: JsMap<Task>)
    requires tasks.Valid()
    ensures r.Valid()
  {
    match tasks.Get(p.id)
    case None => tasks
    case Some(t) => tasks.Set(p.id, Placed(t, columns, p, now))
  }

  /** What one step leaves under a key that was present. */
  lemma ApplyPlacementAt(tasks: JsMap<Task>, columns: JsMap<Column>, p: Placement, now: Time, k: Id)
    requires tasks.Valid() && k in tasks.entries
    ensures ApplyPlacement(tasks, columns, p, now).entries[k] ==
            if p.id == k then Placed(tasks.entries[k], columns, p, now) else tasks.entries[k]
  {
  }

  /**
   The whole batch, in order. It never adds or removes a task and never
   changes the listing order: known tasks are replaced in place.
   */
  function ApplyPlacements(tasks: JsMap<Task>, columns: JsMap<Column>, ps: seq<Placement>, now: Time): (r: JsMap<Task>)
    requires tasks.Valid()
    ensures r.Valid()
    ensures r.keys == tasks.keys
    ensures r.entries.Keys == tasks.entries.Keys
  {
    if ps == [] then tasks
    else ApplyPlacement(ApplyPlacements(tasks, columns, ps[..|ps| - 1], now), columns, ps[|ps| - 1], now)
  }

  /** A task that no entry names comes out exactly as it went in. */
  lemma {:induction false} UnnamedUnchanged(tasks: JsMap<Task>, columns: JsMap<Column>, ps: seq<Placement>, now: Time, k: Id)
    requires tasks.Valid() && k in tasks.entries
    requires forall i :: 0 <= i < |ps| ==> ps[i].id != k
    ensures ApplyPlacements(tasks, columns, ps, now).entries[k] == tasks.entries[k]
  {
    if ps != [] {
      var n := |ps| - 1;
      UnnamedUnchanged(tasks, columns, ps[..n], now, k);
      ApplyPlacementAt(ApplyPlacements(tasks, columns, ps[..n], now), columns, ps[n], now, k);
    }
  }

  /**
   The last entry naming a task decides its column and order; its status is
   re-derived from that entry's column, starting from the status the earlier
   entries left.
   */
  lemma {:induction false} LastEntryWins(tasks: JsMap<Task>, columns: JsMap<Column>, ps: seq<Placement>, now: Time, j: nat)
    requires tasks.Valid() && j < |ps| && ps[j].id in tasks.entries
    requires forall i :: j < i < |ps| ==> ps[i].id != ps[j].id
    ensures ApplyPlacements(tasks, columns, ps, now).entries[ps[j].id] ==
            Placed(ApplyPlacements(tasks, columns, ps[..j], now).entries[ps[j].id], columns, ps[j], now)
  {
    var n, k := |ps| - 1, ps[j].id;
    var prev := ApplyPlacements(tasks, columns, ps[..n], now);
    assert ApplyPlacements(tasks, columns, ps, now) == ApplyPlacement(prev, columns, ps[n], now);
    ApplyPlacementAt(prev, columns, ps[n], now, k);
    if j < n {
      var front := ps[..n];
      assert front[..j] == ps[..j];
      assert front[j] == ps[j];
      assert forall i :: j < i < |front| ==> front[i] == ps[i];
      assert ps[n].id != k;
      LastEntryWins(tasks, columns, front, now, j);
    }
  }

  /** The batch only ever changes a task's placement, status and update time. */
  lemma {:induction false} ContentKept(tasks: JsMap<Task>, columns: JsMap<Column>, ps: seq<Placement>, now: Time, k: Id)
    requires tasks.Valid() && k in tasks.entries
    ensures SameContent(ApplyPlacements(tasks, columns, ps, now).entries[k], tasks.entries[k])
  {
    if ps != [] {
      var n := |ps| - 1;
      ContentKept(tasks, columns, ps[..n], now, k);
      ApplyPlacementAt(ApplyPlacements(tasks, columns, ps[..n], now), columns, ps[n], now, k);
    }
  }

  ghost predicate StatusesKnown(tasks: JsMap<Task>)
  {
    forall k :: k in tasks.entries ==> IsStatus(tasks.entries[k].status)
  }

  /** A batch never gives a task a status outside the three known ones. */
  lemma {:induction false} StatusesStayKnown(tasks: JsMap<Task>, columns: JsMap<Column>, ps: seq<Placement>, now: Time)
    requires tasks.Valid()
    requires StatusesKnown(tasks)
    ensures StatusesKnown(ApplyPlacements(tasks, columns, ps, now))
  {
    if ps != [] {
      var n := |ps| - 1;
      StatusesStayKnown(tasks, columns, ps[..n], now);
      var prev := ApplyPlacements(tasks, columns, ps[..n], now);
      forall k | k in prev.entries
        ensures IsStatus(ApplyPlacement(prev, columns, ps[n], now).entries[k].status)
      {
        ApplyPlacementAt(prev, columns, ps[n], now, k);
        var t := prev.entries[k];
        assert IsStatus(t.status);
        var column := columns.Get(ps[n].columnId);
        assert IsStatus(DerivedStatus(column, t.status));
      }
    }
  }

  /**
   A batch entry for a known task does what `updateTask` does with
   `{ columnId, order }`, as long as no column has the empty id (the only id
   on which the two lookups differ: `updateTask` skips a falsy `columnId`).
   */
  lemma PlacementIsUpdate(t: Task, columns: JsMap<Column>, p: Placement, now: Time)
    requires "" !in columns.entries
    ensures Placed(t, columns, p, now) ==
            PatchTask(t, TaskPatch(None, None, None, None, None, Some(p.columnId), Some(p.order)), columns, now)
  {
  }
}
