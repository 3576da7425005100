/**
 * The in-memory task collection: tasks, their status transition, and a list
 * that hands out identifiers from a counter.
 */
module Tasks {
  import opened Wrappers
  import opened Timestamps

  const U32_LIMIT: int := 0x1_0000_0000

  /** Rust's `u32`: identifiers are 32-bit unsigned integers. */
  type U32 = x: int | 0 <= x < 0x1_0000_0000

  datatype Status = Todo | Done

  /** The checkbox a record line shows for a status. */
  function Marker(s: Status): (r: string)
    ensures |r| == 3 && r[0] == '[' && r[2] == ']'
    ensures r[1] == ' ' || r[1] == 'x'
    ensures r[1] == 'x' <==> s == Done
  {
    match s
    case Todo => "[ ]"
    case Done => "[x]"
  }

  datatype Task = Task(
    id: U32,
    title: string,
    status: Status,
    createdAt: DateTime,
    doneAt: Option<DateTime>)

  predicate IsDone(t: Task) {
    t.status == Done
  }

  /** The intended task invariant: a completion time is recorded exactly when the task is done. */
  predicate DoneAtMatchesStatus(t: Task) {
    t.doneAt.Some? <==> IsDone(t)
  }

  /** `Task::new`: a pending task created at `now`. */
  function NewTask(id: U32, title: string, now: DateTime): (t: Task)
    ensures t.id == id && t.title == title && t.createdAt == now
    ensures !IsDone(t) && DoneAtMatchesStatus(t)
  {
    Task(id, title, Todo, now, None)
  }

  /** `Task::mark_done`: the task becomes done at `now`; nothing but status and completion time changes. */
  function MarkDone(t: Task, now: DateTime): (r: Task)
    ensures IsDone(r) && r.doneAt == Some(now) && DoneAtMatchesStatus(r)
    ensures r.id == t.id && r.title == t.title && r.createdAt == t.createdAt
  {
    t.(status := Done, doneAt := Some(now))
  }

  /** Marking a task done twice leaves it done, with the later completion time. */
  lemma MarkDoneTwice(t: Task, first: DateTime, second: DateTime)
    ensures MarkDone(MarkDone(t, first), second) == MarkDone(t, second)
  {
  }

  /** The tasks of `ts` that have status `s`, in their order in `ts`. */
  function Filter(ts: seq<Task>, s: Status): (r: seq<Task>)
    ensures |r| <= |ts|
    ensures forall i :: 0 <= i < |r| ==> r[i].status == s
    ensures forall t :: t in r <==> t in ts && t.status == s
  {
    if ts == [] then []
    else (if ts[0].status == s then [ts[0]] else []) + Filter(ts[1..], s)
  }

  /** `todo_tasks`: the pending tasks, in order. */
  function TodoOf(ts: seq<Task>): seq<Task> {
    Filter(ts, Todo)
  }

  /** The completed tasks, in order. */
  function DoneOf(ts: seq<Task>): seq<Task> {
    Filter(ts, Done)
  }

  /** Filtering distributes over concatenation: it keeps the relative order of what it selects. */
  lemma {:induction false} FilterAppend(a: seq<Task>, b: seq<Task>, s: Status)
    ensures Filter(a + b, s) == Filter(a, s) + Filter(b, s)
  {
    if a == [] {
      assert a + b == b;
    } else {
      assert (a + b)[0] == a[0];
      assert (a + b)[1..] == a[1..] + b;
      FilterAppend(a[1..], b, s);
    }
  }

  lemma FilterCons(ts: seq<Task>, s: Status)
    requires ts != []
    ensures Filter(ts, s) == if ts[0].status == s then [ts[0]] + Filter(ts[1..], s) else Filter(ts[1..], s)
  {
  }

  /** One element put in front of either part of a permutation of `c` gives a permutation of `[x] + c`. */
  lemma ConsPermutation<T>(a: seq<T>, b: seq<T>, c: seq<T>, x: T)
    requires multiset(a + b) == multiset(c)
    ensures multiset([x] + a + b) == multiset([x] + c)
    ensures multiset(a + ([x] + b)) == multiset([x] + c)
  {
    assert [x] + a + b == [x] + (a + b);
  }

  /** Splitting by status loses and invents nothing: the two parts are a permutation of the whole. */
  lemma {:induction false} FilterPartition(ts: seq<Task>)
    ensures multiset(TodoOf(ts) + DoneOf(ts)) == multiset(ts)
    ensures |TodoOf(ts)| + |DoneOf(ts)| == |ts|
  {
    if ts != [] {
      var rest := ts[1..];
      FilterPartition(rest);
      ConsPermutation(TodoOf(rest), DoneOf(rest), rest, ts[0]);
      FilterCons(ts, Todo);
      FilterCons(ts, Done);
      assert ts == [ts[0]] + rest;
    }
  }

  /** Selecting again selects nothing new, and the other status selects nothing. */
  lemma {:induction false} FilterOfFilter(ts: seq<Task>, s: Status, s': Status)
    ensures Filter(Filter(ts, s), s') == if s == s' then Filter(ts, s) else []
  {
    if ts != [] {
      var head := if ts[0].status == s then [ts[0]] else [];
      FilterAppend(head, Filter(ts[1..], s), s');
      FilterOfFilter(ts[1..], s, s');
    }
  }

  /** The largest id in `ts`, or 0 for no tasks (`max().unwrap_or(0)` in `with_tasks`). */
  function MaxId(ts: seq<Task>): (m: U32)
    ensures forall i :: 0 <= i < |ts| ==> ts[i].id <= m
    ensures ts == [] ==> m == 0
    ensures ts != [] ==> exists i :: 0 <= i < |ts| && ts[i].id == m
  {
    if ts == [] then 0
    else
      var rest := MaxId(ts[1..]);
      if ts[0].id >= rest then ts[0].id
      else
        assert exists i :: 1 <= i < |ts| && ts[i].id == rest by {
          var j :| 0 <= j < |ts[1..]| && ts[1..][j].id == rest;
          assert ts[j + 1].id == rest;
        }
        rest
  }

  /** Two task sequences holding the same tasks have the same largest id. */
  lemma MaxIdSameTasks(a: seq<Task>, b: seq<Task>)
    requires forall t :: t in a <==> t in b
    ensures MaxId(a) == MaxId(b)
  {
    if a != [] {
      var i :| 0 <= i < |a| && a[i].id == MaxId(a);
      assert a[i] in a;
      var j :| 0 <= j < |b| && b[j] == a[i];
      var k :| 0 <= k < |b| && b[k].id == MaxId(b);
      assert b[k] in b;
      var l :| 0 <= l < |a| && a[l] == b[k];
    } else if b != [] {
      assert b[0] in b;
    }
  }

  /** Every id in `ts` is below `bound`. */
  predicate IdsBelow(ts: seq<Task>, bound: int) {
    forall i :: 0 <= i < |ts| ==> ts[i].id < bound
  }

  /** No two tasks of `ts` share an id. */
  predicate DistinctIds(ts: seq<Task>) {
    forall i, j :: 0 <= i < j < |ts| ==> ts[i].id != ts[j].id
  }

  /** The position of the first task with identifier `id`, if any. */
  function FirstIndex(ts: seq<Task>, id: U32): (r: Option<nat>)
    ensures r.Some? ==> r.value < |ts| && ts[r.value].id == id
    ensures r.Some? ==> forall j :: 0 <= j < r.value ==> ts[j].id != id
    ensures r.None? <==> forall j :: 0 <= j < |ts| ==> ts[j].id != id
  {
    if ts == [] then None
    else if ts[0].id == id then Some(0)
    else match FirstIndex(ts[1..], id)
      case None => None
      case Some(k) => Some(k + 1)
  }

  /** Deleting one position keeps ids below a bound and keeps them distinct. */
  lemma DeletePreservesIds(ts: seq<Task>, i: nat, bound: int)
    requires i < |ts| && IdsBelow(ts, bound)
    ensures IdsBelow(ts[..i] + ts[i + 1..], bound)
    ensures DistinctIds(ts) ==> DistinctIds(ts[..i] + ts[i + 1..])
  {
    var r := ts[..i] + ts[i + 1..];
    assert forall k :: 0 <= k < |r| ==> r[k] == if k < i then ts[k] else ts[k + 1];
  }

  /** Replacing one task by one with the same id keeps ids below a bound and keeps them distinct. */
  lemma ReplacePreservesIds(ts: seq<Task>, i: nat, t: Task, bound: int)
    requires i < |ts| && t.id == ts[i].id && IdsBelow(ts, bound)
    ensures IdsBelow(ts[i := t], bound)
    ensures DistinctIds(ts) ==> DistinctIds(ts[i := t])
  {
  }

  /**
   * `TaskList`: the tasks in insertion order and the counter that gives the next
   * identifier. The invariant is that every stored id is below the counter.
   */
  class TaskList {
    var tasks: seq<Task>
    var nextId: nat

    ghost predicate Valid()
      reads this
    {
      nextId >= 1 && IdsBelow(tasks, nextId)
    }

    /** `TaskList::new`: no tasks, and the first id handed out is 1. */
    constructor ()
      ensures Valid()
      ensures tasks == [] && nextId == 1
    {
      tasks := [];
      nextId := 1;
    }

    /** `TaskList::with_tasks`: keeps `ts` as given and derives the counter from the largest id. */
    constructor WithTasks(ts: seq<Task>)
      ensures Valid()
      ensures tasks == ts && nextId == MaxId(ts) + 1
    {
      tasks := ts;
      nextId := MaxId(ts) + 1;
    }

    /**
     * `add`: appends a pending task created at `now` under the current counter,
     * returns it, and advances the counter. The new id is not in use.
     */
    method Add(title: string, now: DateTime) returns (t: Task)
      requires Valid()
      requires nextId < U32_LIMIT - 1
      modifies this
      ensures Valid()
      ensures t.id == old(nextId) && t.title == title && t.status == Todo
      ensures t.createdAt == now && t.doneAt == None
      ensures tasks == old(tasks) + [t]
      ensures nextId == old(nextId) + 1
      ensures forall i :: 0 <= i < |old(tasks)| ==> old(tasks)[i].id != t.id
      ensures DistinctIds(old(tasks)) ==> DistinctIds(tasks)
    {
      t := NewTask(nextId as U32, title, now);
      nextId := nextId + 1;
      tasks := tasks + [t];
    }

    /**
     * `find_mut`: the position of the first task with identifier `id`, or None
     * when no task has it. The position stands for the mutable reference.
     */
    method FindMut(id: U32) returns (pos: Option<nat>)
      ensures pos == FirstIndex(tasks, id)
    {
      var i := 0;
      while i < |tasks|
        invariant 0 <= i <= |tasks|
        invariant forall j :: 0 <= j < i ==> tasks[j].id != id
      {
        if tasks[i].id == id {
          return Some(i);
        }
        i := i + 1;
      }
      return None;
    }

    /**
     * `remove`: takes out the first task with identifier `id` and returns it; the
     * other tasks keep their order. Without such a task nothing changes.
     */
    method Remove(id: U32) returns (removed: Option<Task>)
      requires Valid()
      modifies this
      ensures Valid()
      ensures nextId == old(nextId)
      ensures FirstIndex(old(tasks), id).None? ==> removed == None && tasks == old(tasks)
      ensures FirstIndex(old(tasks), id).Some? ==>
        var i := FirstIndex(old(tasks), id).value;
        removed == Some(old(tasks)[i]) && tasks == old(tasks)[..i] + old(tasks)[i + 1..]
      ensures removed.Some? ==> removed.value.id == id
      ensures DistinctIds(old(tasks)) ==> DistinctIds(tasks)
    {
      var pos := FindMut(id);
      match pos
      case None =>
        removed := None;
      case Some(i) =>
        removed := Some(tasks[i]);
        DeletePreservesIds(tasks, i, nextId);
        tasks := tasks[..i] + tasks[i + 1..];
    }

    /**
     * The `edit` command: `find_mut` and then an assignment to the title. Only the
     * title of the first task with identifier `id` changes.
     */
    method EditTitle(id: U32, newTitle: string) returns (found: bool)
      requires Valid()
      modifies this
      ensures Valid()
      ensures nextId == old(nextId)
      ensures found == FirstIndex(old(tasks), id).Some?
      ensures !found ==> tasks == old(tasks)
      ensures found ==>
        var i := FirstIndex(old(tasks), id).value;
        tasks == old(tasks)[i := old(tasks)[i].(title := newTitle)]
      ensures DistinctIds(old(tasks)) ==> DistinctIds(tasks)
    {
      var pos := FindMut(id);
      found := pos.Some?;
      if found {
        var i := pos.value;
        ReplacePreservesIds(tasks, i, tasks[i].(title := newTitle), nextId);
        tasks := tasks[i := tasks[i].(title := newTitle)];
      }
    }

    /**
     * The `done` command: `find_mut` and then `mark_done` on the task found, in place.
     */
    method MarkDoneById(id: U32, now: DateTime) returns (found: bool)
      requires Valid()
      modifies this
      ensures Valid()
      ensures nextId == old(nextId)
      ensures found == FirstIndex(old(tasks), id).Some?
      ensures !found ==> tasks == old(tasks)
      ensures found ==>
        var i := FirstIndex(old(tasks), id).value;
        tasks == old(tasks)[i := MarkDone(old(tasks)[i], now)]
      ensures DistinctIds(old(tasks)) ==> DistinctIds(tasks)
    {
      var pos := FindMut(id);
      found := pos.Some?;
      if found {
        var i := pos.value;
        ReplacePreservesIds(tasks, i, MarkDone(tasks[i], now), nextId);
        tasks := tasks[i := MarkDone(tasks[i], now)];
      }
    }

    /** `todo_tasks`: the pending tasks, in order. */
    function TodoTasks(): (r: seq<Task>)
      reads this
      ensures forall t :: t in r <==> t in tasks && !IsDone(t)
    {
      TodoOf(tasks)
    }

    /** `all_tasks`: every task, in order. */
    function AllTasks(): (r: seq<Task>)
      reads this
      ensures |r| == |tasks| && forall i :: 0 <= i < |r| ==> r[i] == tasks[i]
    {
      tasks
    }
  }
}
