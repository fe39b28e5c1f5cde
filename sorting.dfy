/**
 `tasks.sort((a, b) => a.order - b.order)`: JavaScript's sort is stable, so
 the result is ordered by `order` and tasks with equal `order` keep their
 relative positions. Modelled as an insertion sort.
 */
module Sorting {
  import opened Records
  import Seqs

  ghost predicate SortedByOrder(ts: seq<Task>)
  {
    forall i, j :: 0 <= i < j < |ts| ==> ts[i].order <= ts[j].order
  }

  /** The tasks whose `order` is `k`. */
  function HasOrder(k: int): Task -> bool
  {
    (t: Task) => t.order == k
  }

  /** Puts `t` before the first task whose order is not smaller than its own. */
  function Insert(t: Task, ts: seq<Task>): (r: seq<Task>)
    requires SortedByOrder(ts)
    ensures SortedByOrder(r)
    ensures multiset(r) == multiset(ts) + multiset{t}
  {
    if ts == [] || t.order <= ts[0].order then
      [t] + ts
    else
      var rest := Insert(t, ts[1..]);
      InsertAfterHead(t, ts, rest);
      [ts[0]] + rest
  }

  /** Prepending a task no later than every element keeps a list sorted. */
  lemma PrependSorted(h: Task, r: seq<Task>)
    requires SortedByOrder(r)
    requires forall i :: 0 <= i < |r| ==> h.order <= r[i].order
    ensures SortedByOrder([h] + r)
  {
  }

  lemma InsertAfterHead(t: Task, ts: seq<Task>, rest: seq<Task>)
    requires SortedByOrder(ts) && ts != [] && ts[0].order < t.order
    requires SortedByOrder(rest) && multiset(rest) == multiset(ts[1..]) + multiset{t}
    ensures SortedByOrder([ts[0]] + rest)
    ensures multiset([ts[0]] + rest) == multiset(ts) + multiset{t}
  {
    forall i | 0 <= i < |rest|
      ensures ts[0].order <= rest[i].order
    {
      assert rest[i] in multiset(rest);
      if rest[i] != t {
        assert rest[i] in multiset(ts[1..]);
        var j :| 1 <= j < |ts| && ts[j] == rest[i];
      }
    }
    PrependSorted(ts[0], rest);
    assert ts == [ts[0]] + ts[1..];
  }

  function SortByOrder(ts: seq<Task>): (r: seq<Task>)
    ensures SortedByOrder(r)
    ensures multiset(r) == multiset(ts)
  {
    if ts == [] then [] else
      assert ts == [ts[0]] + ts[1..];
      Insert(ts[0], SortByOrder(ts[1..]))
  }

  /** Inserting `t` places it ahead of every task that already has its order. */
  lemma {:induction false} InsertStable(t: Task, ts: seq<Task>, k: int)
    requires SortedByOrder(ts)
    ensures Seqs.Filter(Insert(t, ts), HasOrder(k)) ==
            (if t.order == k then [t] else []) + Seqs.Filter(ts, HasOrder(k))
  {
    if ts == [] || t.order <= ts[0].order {
      Seqs.FilterCons(t, ts, HasOrder(k));
    } else {
      InsertStable(t, ts[1..], k);
      InsertStableStep(ts[0], t, ts[1..], Insert(t, ts[1..]), k);
      assert ts == [ts[0]] + ts[1..];
    }
  }

  lemma InsertStableStep(h: Task, t: Task, tail: seq<Task>, rest: seq<Task>, k: int)
    requires h.order < t.order
    requires Seqs.Filter(rest, HasOrder(k)) == (if t.order == k then [t] else []) + Seqs.Filter(tail, HasOrder(k))
    ensures Seqs.Filter([h] + rest, HasOrder(k)) ==
            (if t.order == k then [t] else []) + Seqs.Filter([h] + tail, HasOrder(k))
  {
    var p := HasOrder(k);
    Seqs.FilterCons(h, rest, p);
    Seqs.FilterCons(h, tail, p);
    if t.order == k {
      assert !p(h);
      assert [] + Seqs.Filter(rest, p) == Seqs.Filter(rest, p);
      assert [] + Seqs.Filter(tail, p) == Seqs.Filter(tail, p);
    } else {
      assert [] + Seqs.Filter(rest, p) == Seqs.Filter(rest, p);
      assert [] + Seqs.Filter([h] + tail, p) == Seqs.Filter([h] + tail, p);
    }
  }

  /**
   The sort is stable: for every order value, the tasks with that order appear
   in the result exactly as they appear in the input.
   */
  lemma {:induction false} SortStable(ts: seq<Task>, k: int)
    ensures Seqs.Filter(SortByOrder(ts), HasOrder(k)) == Seqs.Filter(ts, HasOrder(k))
  {
    if ts != [] {
      SortStable(ts[1..], k);
      InsertStable(ts[0], SortByOrder(ts[1..]), k);
    }
  }
}
