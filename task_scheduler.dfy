/** TaskScheduler: periodic tasks, each with a maximum offset (its period at
    the lowest urgency) and a priority factor in milliseconds-per-offset, kept
    in a queue of execution instances ordered by the time they are due.
    A smaller priority value means a shorter delay, i.e. a more urgent task.
    Each critical section is one method call; the current time is a
    parameter. */
module TaskSchedulers {
  import opened Base

  type TaskId = nat

  /** MINIMUM_PRIORITY: set_priority never lets a priority go below this. */
  const MinimumPriority: real := 0.1

  /** The default minimum re-schedule time: 10 seconds, in milliseconds. */
  const DefaultMinimumReschedule: int := 10000

  /** A task's entry in the task table; the task itself is opaque. */
  datatype TaskMetadata<A> = TaskMetadata(task: A, maximumOffset: nat, priority: real, lastPrioritySetTime: int)

  /** One scheduled run of a task. */
  datatype ExecutionInstance = ExecutionInstance(taskId: TaskId, scheduledAt: int, scheduledFor: int)

  // ---------------------------------------------------------------------
  // The schedule delta and the priority decay.

  /** get_schedule_delta: maximum_offset * priority, truncated to whole
      milliseconds. */
  function ScheduleDelta(maximumOffset: nat, priority: real): (d: nat)
    requires priority >= 0.0
    ensures d as real <= maximumOffset as real * priority < d as real + 1.0
  {
    (maximumOffset as real * priority).Floor
  }

  /** A more urgent (smaller) priority never gives a longer delay. */
  lemma ScheduleDeltaMonotone(maximumOffset: nat, p: real, q: real)
    requires 0.0 <= p <= q
    ensures ScheduleDelta(maximumOffset, p) <= ScheduleDelta(maximumOffset, q)
  {
    var m := maximumOffset as real;
    ScaleMonotone(m, p, q);
    FloorMonotone(m * p, m * q);
  }

  /** A priority of at most 1.0 never delays a task by more than its
      maximum offset. */
  lemma ScheduleDeltaBounded(maximumOffset: nat, q: real)
    requires 0.0 <= q <= 1.0
    ensures ScheduleDelta(maximumOffset, q) <= maximumOffset
  {
    ScheduleDeltaMonotone(maximumOffset, q, 1.0);
    ScheduleDeltaAtOne(maximumOffset);
  }

  lemma ScaleMonotone(m: real, p: real, q: real)
    requires m >= 0.0 && p <= q
    ensures m * p <= m * q
  {
    NonNegativeProduct(m, q - p);
    assert m * q - m * p == m * (q - p);
  }

  lemma FloorMonotone(a: real, b: real)
    requires a <= b
    ensures a.Floor <= b.Floor
  {
    assert a.Floor as real <= a && b < b.Floor as real + 1.0;
  }

  lemma NonNegativeProduct(a: real, b: real)
    requires a >= 0.0 && b >= 0.0
    ensures a * b >= 0.0
  {
  }

  /** At priority 1.0 the delay is the maximum offset itself. */
  lemma ScheduleDeltaAtOne(maximumOffset: nat)
    ensures ScheduleDelta(maximumOffset, 1.0) == maximumOffset
  {
    assert maximumOffset as real * 1.0 == maximumOffset as real;
  }

  /** The priority after the adjustment offset has passed without a
      set_priority: doubled, capped at 1.0. */
  function Decayed(priority: real): (r: real)
    ensures r <= 1.0
    ensures r <= 2.0 * priority
    ensures r == 1.0 || r == 2.0 * priority
    ensures 0.0 <= priority <= 1.0 ==> r >= priority
  {
    if 1.0 < priority * 2.0 then 1.0 else priority * 2.0
  }

  /** Four adjustments take any allowed priority back to the least urgent
      value 1.0; a priority set above 1.0 is brought down to 1.0 by one. */
  lemma DecayReachesOne(priority: real)
    requires priority >= MinimumPriority
    ensures Decayed(Decayed(Decayed(Decayed(priority)))) == 1.0
    ensures priority >= 0.5 ==> Decayed(priority) == 1.0
  {
  }

  /** The task table after set_priority gives task id the (clamped)
      priority p at time now: only that entry changes, and in it only the
      priority and its set time. */
  function PrioritySet<A>(tasks: map<TaskId, TaskMetadata<A>>, id: TaskId, p: real, now: int): (r: map<TaskId, TaskMetadata<A>>)
    requires id in tasks
    ensures r.Keys == tasks.Keys
    ensures r[id].priority == p && r[id].lastPrioritySetTime == now
    ensures r[id].task == tasks[id].task && r[id].maximumOffset == tasks[id].maximumOffset
    ensures forall other :: other in tasks && other != id ==> r[other] == tasks[other]
  {
    tasks[id := tasks[id].(priority := p, lastPrioritySetTime := now)]
  }

  /** The re-schedule rule of set_priority: the new value is below the old
      one, or the current instance is due more than the minimum re-schedule
      time from now. */
  predicate Reschedules(oldPriority: real, newPriority: real, now: int, minimumReschedule: int, scheduledFor: int)
  {
    newPriority - oldPriority < 0.0 || now + minimumReschedule < scheduledFor
  }

  /** Making a task more urgent can postpone it: a task due at 100 whose
      priority drops from 1.0 to 0.5 at time 90 is re-scheduled for 140. */
  lemma MoreUrgentCanPostpone()
    ensures Reschedules(1.0, 0.5, 90, DefaultMinimumReschedule, 100)
    ensures 90 + ScheduleDelta(100, 0.5) == 140
  {
  }

  // ---------------------------------------------------------------------
  // The queue.

  predicate Sorted(q: seq<ExecutionInstance>)
  {
    forall i, j :: 0 <= i < j < |q| ==> q[i].scheduledFor <= q[j].scheduledFor
  }

  predicate DistinctIds(q: seq<ExecutionInstance>)
  {
    forall i, j :: 0 <= i < j < |q| ==> q[i].taskId != q[j].taskId
  }

  function Ids(q: seq<ExecutionInstance>): set<TaskId>
  {
    set i | 0 <= i < |q| :: q[i].taskId
  }

  /** std::upper_bound by scheduled_for: the first position whose instance
      is due strictly later than t. */
  function UpperBoundIndex(q: seq<ExecutionInstance>, t: int): (p: nat)
    ensures p <= |q|
    ensures forall j :: 0 <= j < p ==> q[j].scheduledFor <= t
    ensures p < |q| ==> t < q[p].scheduledFor
  {
    if q == [] || t < q[0].scheduledFor then 0
    else 1 + UpperBoundIndex(q[1..], t)
  }

  /** On a sorted queue the upper bound splits it into the instances due no
      later than t and those due later. */
  lemma UpperBoundSplits(q: seq<ExecutionInstance>, t: int)
    requires Sorted(q)
    ensures forall j :: UpperBoundIndex(q, t) <= j < |q| ==> t < q[j].scheduledFor
  {
  }

  /** schedule_task's insertion: x goes after every instance due no later
      than it. */
  function Insert(q: seq<ExecutionInstance>, x: ExecutionInstance): (r: seq<ExecutionInstance>)
    ensures |r| == |q| + 1
  {
    if q == [] || x.scheduledFor < q[0].scheduledFor then [x] + q
    else [q[0]] + Insert(q[1..], x)
  }

  /** The insertion is the split at the upper bound, as schedule_task
      performs it with std::upper_bound and insert. */
  lemma {:induction false} InsertIsSplice(q: seq<ExecutionInstance>, x: ExecutionInstance)
    ensures var p := UpperBoundIndex(q, x.scheduledFor);
            Insert(q, x) == q[..p] + [x] + q[p..]
  {
    if q == [] || x.scheduledFor < q[0].scheduledFor {
      assert q[..0] + [x] + q[0..] == [x] + q;
    } else {
      var p := UpperBoundIndex(q[1..], x.scheduledFor);
      InsertIsSplice(q[1..], x);
      assert q[..p + 1] == [q[0]] + q[1..][..p];
      assert q[p + 1..] == q[1..][p..];
    }
  }

  /** Inserting puts x after every instance due at the same time or
      earlier and before every instance due later, and keeps the rest of
      the queue in order around it. */
  lemma {:induction false} InsertPlacement(q: seq<ExecutionInstance>, x: ExecutionInstance)
    requires Sorted(q)
    ensures var p := UpperBoundIndex(q, x.scheduledFor);
            && |Insert(q, x)| == |q| + 1
            && Insert(q, x)[p] == x
            && (forall j :: 0 <= j < p ==> Insert(q, x)[j] == q[j] && q[j].scheduledFor <= x.scheduledFor)
            && (forall j :: p <= j < |q| ==> Insert(q, x)[j + 1] == q[j] && x.scheduledFor < q[j].scheduledFor)
  {
    UpperBoundSplits(q, x.scheduledFor);
    InsertIsSplice(q, x);
    Splice(q, x, UpperBoundIndex(q, x.scheduledFor));
  }

  /** Where each element lands when x is put at position p. */
  lemma Splice<T>(q: seq<T>, x: T, p: nat)
    requires p <= |q|
    ensures |q[..p] + [x] + q[p..]| == |q| + 1
    ensures (q[..p] + [x] + q[p..])[p] == x
    ensures forall j :: 0 <= j < p ==> (q[..p] + [x] + q[p..])[j] == q[j]
    ensures forall j :: p <= j < |q| ==> (q[..p] + [x] + q[p..])[j + 1] == q[j]
  {
  }

  /** Inserting keeps the queue sorted. */
  lemma {:induction false} InsertSorted(q: seq<ExecutionInstance>, x: ExecutionInstance)
    requires Sorted(q)
    ensures Sorted(Insert(q, x))
  {
    InsertPlacement(q, x);
    var p := UpperBoundIndex(q, x.scheduledFor);
    var r := Insert(q, x);
    forall i, j | 0 <= i < j < |r| ensures r[i].scheduledFor <= r[j].scheduledFor {
      var si := if i < p then q[i].scheduledFor else if i == p then x.scheduledFor else q[i - 1].scheduledFor;
      var sj := if j < p then q[j].scheduledFor else if j == p then x.scheduledFor else q[j - 1].scheduledFor;
      assert r[i].scheduledFor == si;
      assert r[j].scheduledFor == sj;
    }
  }

  /** Inserting adds exactly x. */
  lemma InsertMultiset(q: seq<ExecutionInstance>, x: ExecutionInstance)
    ensures multiset(Insert(q, x)) == multiset(q) + multiset{x}
  {
    InsertIsSplice(q, x);
    SpliceMultiset(q, x, UpperBoundIndex(q, x.scheduledFor));
  }

  lemma SpliceMultiset<T>(q: seq<T>, x: T, p: nat)
    requires p <= |q|
    ensures multiset(q[..p] + [x] + q[p..]) == multiset(q) + multiset{x}
  {
    assert q == q[..p] + q[p..];
  }

  /** Inserting adds x's id to the ids present. */
  lemma {:induction false} InsertIds(q: seq<ExecutionInstance>, x: ExecutionInstance)
    requires Sorted(q)
    ensures Ids(Insert(q, x)) == Ids(q) + {x.taskId}
  {
    InsertPlacement(q, x);
    PlacedIds(q, x, UpperBoundIndex(q, x.scheduledFor), Insert(q, x));
  }

  /** r is q with x placed at position p: its ids are those of q and x's. */
  lemma PlacedIds(q: seq<ExecutionInstance>, x: ExecutionInstance, p: nat, r: seq<ExecutionInstance>)
    requires p <= |q| && |r| == |q| + 1 && r[p] == x
    requires forall j :: 0 <= j < p ==> r[j] == q[j]
    requires forall j :: p <= j < |q| ==> r[j + 1] == q[j]
    ensures Ids(r) == Ids(q) + {x.taskId}
  {
    forall id | id in Ids(r) ensures id in Ids(q) + {x.taskId} {
      var i :| 0 <= i < |r| && r[i].taskId == id;
      if i > p { assert r[i] == q[i - 1]; }
    }
    forall id | id in Ids(q) ensures id in Ids(r) {
      var i :| 0 <= i < |q| && q[i].taskId == id;
      if i < p { assert r[i] == q[i]; } else { assert r[i + 1] == q[i]; }
    }
    assert r[p].taskId == x.taskId;
  }

  /** Inserting an instance of a task not in the queue keeps the ids
      distinct. */
  lemma {:induction false} InsertDistinct(q: seq<ExecutionInstance>, x: ExecutionInstance)
    requires Sorted(q) && DistinctIds(q) && x.taskId !in Ids(q)
    ensures DistinctIds(Insert(q, x))
  {
    InsertPlacement(q, x);
    PlacedDistinct(q, x, UpperBoundIndex(q, x.scheduledFor), Insert(q, x));
  }

  /** r is q with x placed at position p: when x's id is new, the ids of r
      are distinct. */
  lemma PlacedDistinct(q: seq<ExecutionInstance>, x: ExecutionInstance, p: nat, r: seq<ExecutionInstance>)
    requires DistinctIds(q) && x.taskId !in Ids(q)
    requires p <= |q| && |r| == |q| + 1 && r[p] == x
    requires forall j :: 0 <= j < p ==> r[j] == q[j]
    requires forall j :: p <= j < |q| ==> r[j + 1] == q[j]
    ensures DistinctIds(r)
  {
    forall i, j | 0 <= i < j < |r| ensures r[i].taskId != r[j].taskId {
      var ii := if i < p then i else i - 1;
      var jj := if j < p then j else j - 1;
      if i == p {
        assert r[j] == q[jj];
        assert q[jj].taskId in Ids(q);
      } else if j == p {
        assert r[i] == q[ii];
        assert q[ii].taskId in Ids(q);
      } else {
        assert r[i] == q[ii] && r[j] == q[jj];
      }
    }
  }

  /** find_if by task id: the first position holding an instance of id, or
      the length of the queue when there is none. */
  function IndexOf(q: seq<ExecutionInstance>, id: TaskId): (i: nat)
    ensures i <= |q|
    ensures i < |q| ==> q[i].taskId == id
    ensures forall j :: 0 <= j < i ==> q[j].taskId != id
  {
    if q == [] then 0
    else if q[0].taskId == id then 0
    else 1 + IndexOf(q[1..], id)
  }

  /** find_if finds an instance exactly when the id is present. */
  lemma IndexOfFound(q: seq<ExecutionInstance>, id: TaskId)
    ensures IndexOf(q, id) < |q| <==> id in Ids(q)
  {
    if id in Ids(q) {
      var k :| 0 <= k < |q| && q[k].taskId == id;
      assert IndexOf(q, id) <= k;
    }
  }

  /** The queue without its instance at position i. */
  function RemoveAt(q: seq<ExecutionInstance>, i: nat): (r: seq<ExecutionInstance>)
    requires i < |q|
    ensures |r| == |q| - 1
  {
    if i == 0 then q[1..] else [q[0]] + RemoveAt(q[1..], i - 1)
  }

  /** Removing is erasing at position i, as remove_scheduled_instance does. */
  lemma {:induction false} RemoveAtIsSplice(q: seq<ExecutionInstance>, i: nat)
    requires i < |q|
    ensures RemoveAt(q, i) == q[..i] + q[i + 1..]
  {
    if i > 0 {
      RemoveAtIsSplice(q[1..], i - 1);
      assert q[..i] == [q[0]] + q[1..][..i - 1];
      assert q[i + 1..] == q[1..][i..];
    }
  }

  /** Erasing one instance keeps the queue sorted and removes exactly that
      instance. */
  lemma {:induction false} RemoveAtSorted(q: seq<ExecutionInstance>, i: nat)
    requires i < |q|
    ensures Sorted(q) ==> Sorted(RemoveAt(q, i))
    ensures multiset(RemoveAt(q, i)) == multiset(q) - multiset{q[i]}
  {
    RemoveAtIsSplice(q, i);
    Unsplice(q, i, RemoveAt(q, i));
    if Sorted(q) {
      ErasedSorted(q, i, RemoveAt(q, i));
    }
  }

  /** With distinct ids, erasing one instance removes exactly its id and
      keeps the others distinct. */
  lemma {:induction false} RemoveAtIds(q: seq<ExecutionInstance>, i: nat)
    requires i < |q| && DistinctIds(q)
    ensures DistinctIds(RemoveAt(q, i))
    ensures Ids(RemoveAt(q, i)) == Ids(q) - {q[i].taskId}
  {
    RemoveAtIsSplice(q, i);
    Unsplice(q, i, RemoveAt(q, i));
    ErasedIds(q, i, RemoveAt(q, i));
  }

  /** Where each element lands when the one at position i is erased. */
  lemma Unsplice<T>(q: seq<T>, i: nat, r: seq<T>)
    requires i < |q| && r == q[..i] + q[i + 1..]
    ensures |r| == |q| - 1
    ensures forall j :: 0 <= j < i ==> r[j] == q[j]
    ensures forall j :: i <= j < |r| ==> r[j] == q[j + 1]
    ensures multiset(r) == multiset(q) - multiset{q[i]}
  {
    assert q == q[..i] + [q[i]] + q[i + 1..];
  }

  /** r is q with its instance at position i erased: r is sorted when q is. */
  lemma ErasedSorted(q: seq<ExecutionInstance>, i: nat, r: seq<ExecutionInstance>)
    requires i < |q| && |r| == |q| - 1 && Sorted(q)
    requires forall j :: 0 <= j < i ==> r[j] == q[j]
    requires forall j :: i <= j < |r| ==> r[j] == q[j + 1]
    ensures Sorted(r)
  {
    forall a, b | 0 <= a < b < |r| ensures r[a].scheduledFor <= r[b].scheduledFor {
      var qa := if a < i then a else a + 1;
      var qb := if b < i then b else b + 1;
      assert r[a] == q[qa] && r[b] == q[qb];
    }
  }

  /** r is q with its instance at position i erased: with distinct ids, r
      has distinct ids and lacks exactly that instance's id. */
  lemma ErasedIds(q: seq<ExecutionInstance>, i: nat, r: seq<ExecutionInstance>)
    requires i < |q| && |r| == |q| - 1 && DistinctIds(q)
    requires forall j :: 0 <= j < i ==> r[j] == q[j]
    requires forall j :: i <= j < |r| ==> r[j] == q[j + 1]
    ensures DistinctIds(r)
    ensures Ids(r) == Ids(q) - {q[i].taskId}
  {
    forall a, b | 0 <= a < b < |r| ensures r[a].taskId != r[b].taskId {
      var qa := if a < i then a else a + 1;
      var qb := if b < i then b else b + 1;
      assert r[a] == q[qa] && r[b] == q[qb];
    }
    forall id | id in Ids(r) ensures id in Ids(q) - {q[i].taskId} {
      var k :| 0 <= k < |r| && r[k].taskId == id;
      if k < i { assert r[k] == q[k]; } else { assert r[k] == q[k + 1]; }
    }
    forall id | id in Ids(q) - {q[i].taskId} ensures id in Ids(r) {
      var k :| 0 <= k < |q| && q[k].taskId == id;
      if k < i { assert r[k] == q[k]; } else { assert r[k - 1] == q[k]; }
    }
  }

  /** upper_bound on a sorted queue, by binary search. */
  method UpperBound(q: seq<ExecutionInstance>, t: int) returns (p: nat)
    requires Sorted(q)
    ensures p == UpperBoundIndex(q, t)
  {
    UpperBoundSplits(q, t);
    var lo, hi := 0, |q|;
    while lo < hi
      invariant 0 <= lo <= hi <= |q|
      invariant lo <= UpperBoundIndex(q, t) <= hi
      decreases hi - lo
    {
      var mid := lo + (hi - lo) / 2;
      if t < q[mid].scheduledFor {
        hi := mid;
      } else {
        lo := mid + 1;
      }
    }
    return lo;
  }

  /** find_if by task id, by a linear scan. */
  method FindInstance(q: seq<ExecutionInstance>, id: TaskId) returns (i: nat)
    ensures i == IndexOf(q, id)
  {
    i := 0;
    while i < |q| && q[i].taskId != id
      invariant 0 <= i <= |q|
      invariant forall j :: 0 <= j < i ==> q[j].taskId != id
    {
      i := i + 1;
    }
    IndexOfUnique(q, id, i);
  }

  /** The characterisation of IndexOf pins it down. */
  lemma IndexOfUnique(q: seq<ExecutionInstance>, id: TaskId, i: nat)
    requires i <= |q| && (i < |q| ==> q[i].taskId == id)
    requires forall j :: 0 <= j < i ==> q[j].taskId != id
    ensures i == IndexOf(q, id)
  {
  }

  // ---------------------------------------------------------------------
  // The scheduler state and the invariant every operation keeps.

  type TaskTable<A> = map<TaskId, TaskMetadata<A>>

  /** The queue is ordered by due time and holds exactly one instance of
      every task in the table and nothing else; the ids handed out so far
      are below the counter; no priority is below the minimum. */
  ghost predicate Consistent<A>(tasks: TaskTable<A>, queue: seq<ExecutionInstance>, nextId: TaskId)
  {
    && Sorted(queue)
    && DistinctIds(queue)
    && Ids(queue) == tasks.Keys
    && (forall id :: id in tasks ==> id < nextId)
    && (forall id :: id in tasks ==> tasks[id].priority >= MinimumPriority)
  }

  /** Inserting an instance of a task that is not in the table, while the
      table gains that task, keeps the invariant. */
  lemma InsertKeepsConsistent<A>(tasks: TaskTable<A>, queue: seq<ExecutionInstance>, nextId: TaskId,
                                 x: ExecutionInstance, after: TaskTable<A>)
    requires Consistent(tasks, queue, nextId)
    requires x.taskId !in tasks && x.taskId < nextId
    requires after.Keys == tasks.Keys + {x.taskId}
    requires forall id :: id in after ==> after[id].priority >= MinimumPriority
    ensures Consistent(after, Insert(queue, x), nextId)
  {
    InsertSorted(queue, x);
    InsertIds(queue, x);
    InsertDistinct(queue, x);
  }

  /** Adding a task under a fresh id with one new instance keeps the
      invariant. */
  lemma AddKeepsConsistent<A>(tasks: TaskTable<A>, queue: seq<ExecutionInstance>, nextId: TaskId,
                              meta: TaskMetadata<A>, x: ExecutionInstance)
    requires Consistent(tasks, queue, nextId)
    requires x.taskId == nextId && meta.priority >= MinimumPriority
    ensures Consistent(tasks[nextId := meta], Insert(queue, x), nextId + 1)
  {
    assert Consistent(tasks, queue, nextId + 1);
    assert tasks[nextId := meta].Keys == tasks.Keys + {nextId};
    InsertKeepsConsistent(tasks, queue, nextId + 1, x, tasks[nextId := meta]);
  }

  /** Removing a task and its instance keeps the invariant. */
  lemma RemoveKeepsConsistent<A>(tasks: TaskTable<A>, queue: seq<ExecutionInstance>, nextId: TaskId, id: TaskId)
    requires Consistent(tasks, queue, nextId) && id in tasks
    ensures IndexOf(queue, id) < |queue|
    ensures Consistent(tasks - {id}, RemoveAt(queue, IndexOf(queue, id)), nextId)
  {
    IndexOfFound(queue, id);
    var i := IndexOf(queue, id);
    RemoveAtSorted(queue, i);
    RemoveAtIds(queue, i);
  }

  /** Updating a task's entry and leaving its instance in place keeps the
      invariant. */
  lemma UpdateKeepsConsistent<A>(tasks: TaskTable<A>, queue: seq<ExecutionInstance>, nextId: TaskId,
                                 id: TaskId, meta: TaskMetadata<A>)
    requires Consistent(tasks, queue, nextId) && id in tasks && meta.priority >= MinimumPriority
    ensures Consistent(tasks[id := meta], queue, nextId)
  {
    assert tasks[id := meta].Keys == tasks.Keys;
  }

  /** Updating a task's entry and replacing its instance by a new one keeps
      the invariant. */
  lemma RescheduleKeepsConsistent<A>(tasks: TaskTable<A>, queue: seq<ExecutionInstance>, nextId: TaskId,
                                     id: TaskId, meta: TaskMetadata<A>, x: ExecutionInstance)
    requires Consistent(tasks, queue, nextId) && id in tasks
    requires x.taskId == id && meta.priority >= MinimumPriority
    ensures IndexOf(queue, id) < |queue|
    ensures Sorted(RemoveAt(queue, IndexOf(queue, id)))
    ensures Consistent(tasks[id := meta], Insert(RemoveAt(queue, IndexOf(queue, id)), x), nextId)
  {
    RemoveKeepsConsistent(tasks, queue, nextId, id);
    ReplacedKeys(tasks, id, meta);
    ReplacedPriorities(tasks, id, meta, tasks[id := meta]);
    InsertKeepsConsistent(tasks - {id}, RemoveAt(queue, IndexOf(queue, id)), nextId, x, tasks[id := meta]);
  }

  lemma ReplacedPriorities<A>(tasks: TaskTable<A>, id: TaskId, meta: TaskMetadata<A>, after: TaskTable<A>)
    requires forall k :: k in tasks ==> tasks[k].priority >= MinimumPriority
    requires meta.priority >= MinimumPriority && after == tasks[id := meta]
    ensures forall k :: k in after ==> after[k].priority >= MinimumPriority
  {
  }

  lemma ReplacedKeys<K, V>(m: map<K, V>, k: K, v: V)
    requires k in m
    ensures m[k := v].Keys == (m - {k}).Keys + {k}
  {
  }

  /** Popping the earliest instance and re-inserting the task's new one (the
      step of process_tasks) keeps the table and the queue consistent. */
  lemma PopKeepsConsistent<A>(tasks: TaskTable<A>, queue: seq<ExecutionInstance>, nextId: TaskId,
                              meta: TaskMetadata<A>, x: ExecutionInstance)
    requires Consistent(tasks, queue, nextId) && queue != []
    requires x.taskId == queue[0].taskId && meta.priority >= MinimumPriority
    ensures queue[0].taskId in tasks
    ensures Sorted(queue[1..])
    ensures Consistent(tasks[x.taskId := meta], Insert(queue[1..], x), nextId)
  {
    var id := queue[0].taskId;
    assert id in Ids(queue);
    assert IndexOf(queue, id) == 0;
    assert RemoveAt(queue, 0) == queue[1..];
    RescheduleKeepsConsistent(tasks, queue, nextId, id, meta, x);
  }

  /** set_priority's clamp: never below MinimumPriority. */
  function Clamp(priority: real): (r: real)
    ensures r >= MinimumPriority
    ensures priority >= MinimumPriority ==> r == priority
    ensures priority < MinimumPriority ==> r == MinimumPriority
  {
    if priority < MinimumPriority then MinimumPriority else priority
  }

  /** set_priority's effect on a task in the table: its entry gets the
      priority p and the time now; its instance is replaced by one due from
      now with p when the re-schedule rule says so, and left alone
      otherwise. */
  ghost predicate PriorityUpdated<A>(tasks: TaskTable<A>, queue: seq<ExecutionInstance>,
                                     tasks': TaskTable<A>, queue': seq<ExecutionInstance>,
                                     id: TaskId, p: real, now: int, minimumReschedule: int)
    requires id in tasks && IndexOf(queue, id) < |queue| && p >= 0.0
  {
    var i := IndexOf(queue, id);
    && tasks' == PrioritySet(tasks, id, p, now)
    && (Reschedules(tasks[id].priority, p, now, minimumReschedule, queue[i].scheduledFor) ==>
          queue' == Insert(RemoveAt(queue, i), ExecutionInstance(id, now, now + ScheduleDelta(tasks[id].maximumOffset, p))))
    && (!Reschedules(tasks[id].priority, p, now, minimumReschedule, queue[i].scheduledFor) ==>
          queue' == queue)
  }

  /** The re-scheduling case of set_priority keeps the table and the queue
      consistent and has the effect PriorityUpdated describes. */
  lemma RescheduleUpdates<A>(tasks: TaskTable<A>, queue: seq<ExecutionInstance>, nextId: TaskId,
                             id: TaskId, p: real, now: int, minimumReschedule: int, x: ExecutionInstance)
    requires Consistent(tasks, queue, nextId) && id in tasks && p >= MinimumPriority
    requires IndexOf(queue, id) < |queue|
    requires Reschedules(tasks[id].priority, p, now, minimumReschedule, queue[IndexOf(queue, id)].scheduledFor)
    requires x == ExecutionInstance(id, now, now + ScheduleDelta(tasks[id].maximumOffset, p))
    ensures Sorted(RemoveAt(queue, IndexOf(queue, id)))
    ensures Consistent(PrioritySet(tasks, id, p, now), Insert(RemoveAt(queue, IndexOf(queue, id)), x), nextId)
    ensures PriorityUpdated(tasks, queue, PrioritySet(tasks, id, p, now), Insert(RemoveAt(queue, IndexOf(queue, id)), x),
                            id, p, now, minimumReschedule)
  {
    var meta := tasks[id].(priority := p, lastPrioritySetTime := now);
    RescheduleKeepsConsistent(tasks, queue, nextId, id, meta, x);
    assert PrioritySet(tasks, id, p, now) == tasks[id := meta];
  }

  class TaskScheduler<A> {
    /** tasks_ */
    var tasks: TaskTable<A>
    /** tasks_queue_ */
    var queue: seq<ExecutionInstance>
    /** current_task_id_: the id the next added task gets. */
    var currentTaskId: TaskId
    /** minimum_reschedule_, in milliseconds */
    var minimumReschedule: int
    /** priority_adjustment_offset_, in milliseconds */
    const priorityAdjustmentOffset: int

    ghost predicate Valid()
      reads this
    {
      Consistent(tasks, queue, currentTaskId)
    }

    constructor (adjustmentOffset: int)
      ensures Valid()
      ensures tasks == map[] && queue == [] && currentTaskId == 0
      ensures minimumReschedule == DefaultMinimumReschedule && priorityAdjustmentOffset == adjustmentOffset
    {
      tasks := map[];
      queue := [];
      currentTaskId := 0;
      minimumReschedule := DefaultMinimumReschedule;
      priorityAdjustmentOffset := adjustmentOffset;
    }

    /** schedule_task: a new instance of id due delta(meta) from now, placed
        by upper_bound. */
    method Schedule(id: TaskId, meta: TaskMetadata<A>, now: int)
      requires Sorted(queue)
      requires meta.priority >= 0.0
      modifies this
      ensures queue == Insert(old(queue), ExecutionInstance(id, now, now + ScheduleDelta(meta.maximumOffset, meta.priority)))
      ensures tasks == old(tasks) && currentTaskId == old(currentTaskId) && minimumReschedule == old(minimumReschedule)
    {
      var instance := ExecutionInstance(id, now, now + ScheduleDelta(meta.maximumOffset, meta.priority));
      var position := UpperBound(queue, instance.scheduledFor);
      InsertIsSplice(queue, instance);
      queue := queue[..position] + [instance] + queue[position..];
    }

    /** remove_scheduled_instance: erases the first instance of id. */
    method RemoveScheduledInstance(id: TaskId)
      requires IndexOf(queue, id) < |queue|
      modifies this
      ensures queue == RemoveAt(old(queue), IndexOf(old(queue), id))
      ensures tasks == old(tasks) && currentTaskId == old(currentTaskId) && minimumReschedule == old(minimumReschedule)
    {
      var position := FindInstance(queue, id);
      RemoveAtIsSplice(queue, position);
      queue := queue[..position] + queue[position + 1..];
    }

    /** add_task: the next id, priority 1.0, priority set now, one instance
        due maximum_offset from now. */
    method AddTask(task: A, maximumOffset: nat, now: int) returns (id: TaskId)
      requires Valid()
      modifies this
      ensures Valid()
      ensures id == old(currentTaskId) && currentTaskId == id + 1
      ensures tasks == old(tasks)[id := TaskMetadata(task, maximumOffset, 1.0, now)]
      ensures queue == Insert(old(queue), ExecutionInstance(id, now, now + maximumOffset))
      ensures minimumReschedule == old(minimumReschedule)
    {
      id := currentTaskId;
      var meta := TaskMetadata(task, maximumOffset, 1.0, now);
      ghost var x := ExecutionInstance(id, now, now + maximumOffset);
      ghost var previousTasks, previousQueue := tasks, queue;
      AddKeepsConsistent(tasks, queue, id, meta, x);
      ScheduleDeltaAtOne(maximumOffset);
      currentTaskId := currentTaskId + 1;
      tasks := tasks[id := meta];
      Schedule(id, meta, now);
      assert queue == Insert(previousQueue, x);
      ConsistentIsValid(previousTasks[id := meta], Insert(previousQueue, x), id + 1);
    }

    /** Valid() holds of any state the fields of which are consistent. */
    lemma ConsistentIsValid(t: TaskTable<A>, q: seq<ExecutionInstance>, n: TaskId)
      requires tasks == t && queue == q && currentTaskId == n
      requires Consistent(t, q, n)
      ensures Valid()
    {
    }

    /** remove_task: nothing for an unknown id; otherwise the table entry and
        the task's one instance go, and nothing else changes. */
    method RemoveTask(id: TaskId)
      requires Valid()
      modifies this
      ensures Valid()
      ensures id !in old(tasks) ==> tasks == old(tasks) && queue == old(queue)
      ensures id in old(tasks) ==> tasks == old(tasks) - {id} && queue == RemoveAt(old(queue), IndexOf(old(queue), id))
      ensures currentTaskId == old(currentTaskId) && minimumReschedule == old(minimumReschedule)
    {
      if id !in tasks {
        return;
      }
      RemoveKeepsConsistent(tasks, queue, currentTaskId, id);
      RemoveScheduledInstance(id);
      tasks := tasks - {id};
    }

    /** set_priority: the value is clamped to at least MinimumPriority; an
        unknown id is an error ("Task not found") that changes nothing.
        Otherwise the priority and its set time are updated, and the task is
        re-scheduled from now when the rule says so. */
    method SetPriority(id: TaskId, priority: real, now: int) returns (found: bool)
      requires Valid()
      modifies this
      ensures Valid()
      ensures found <==> id in old(tasks)
      ensures !found ==> tasks == old(tasks) && queue == old(queue)
      ensures found ==> IndexOf(old(queue), id) < |old(queue)| &&
                        PriorityUpdated(old(tasks), old(queue), tasks, queue, id, Clamp(priority), now, minimumReschedule)
      ensures currentTaskId == old(currentTaskId) && minimumReschedule == old(minimumReschedule)
    {
      if id !in tasks {
        return false;
      }
      IndexOfFound(queue, id);
      var position := FindInstance(queue, id);
      if Reschedules(tasks[id].priority, Clamp(priority), now, minimumReschedule, queue[position].scheduledFor) {
        UpdateAndReschedule(id, Clamp(priority), now);
      } else {
        UpdateInPlace(id, Clamp(priority), now);
      }
      return true;
    }

    /** The new priority and its set time, the task's instance left where it
        is: the case where the re-schedule rule does not apply. */
    method UpdateInPlace(id: TaskId, clamped: real, now: int)
      requires Valid() && id in tasks && clamped >= MinimumPriority && IndexOf(queue, id) < |queue|
      requires !Reschedules(tasks[id].priority, clamped, now, minimumReschedule, queue[IndexOf(queue, id)].scheduledFor)
      modifies this
      ensures Valid()
      ensures PriorityUpdated(old(tasks), old(queue), tasks, queue, id, clamped, now, minimumReschedule)
      ensures currentTaskId == old(currentTaskId) && minimumReschedule == old(minimumReschedule)
    {
      var meta := tasks[id].(priority := clamped, lastPrioritySetTime := now);
      UpdateKeepsConsistent(tasks, queue, currentTaskId, id, meta);
      tasks := PrioritySet(tasks, id, clamped, now);
    }

    /** The new priority and its set time, and the task re-scheduled from
        now with the new priority: the case where the rule applies. */
    method UpdateAndReschedule(id: TaskId, clamped: real, now: int)
      requires Valid() && id in tasks && clamped >= MinimumPriority && IndexOf(queue, id) < |queue|
      requires Reschedules(tasks[id].priority, clamped, now, minimumReschedule, queue[IndexOf(queue, id)].scheduledFor)
      modifies this
      ensures Valid()
      ensures PriorityUpdated(old(tasks), old(queue), tasks, queue, id, clamped, now, minimumReschedule)
      ensures currentTaskId == old(currentTaskId) && minimumReschedule == old(minimumReschedule)
    {
      var meta := tasks[id].(priority := clamped, lastPrioritySetTime := now);
      ghost var previousTasks, previousQueue := tasks, queue;
      ghost var x := ExecutionInstance(id, now, now + ScheduleDelta(meta.maximumOffset, meta.priority));
      assert x == ExecutionInstance(id, now, now + ScheduleDelta(tasks[id].maximumOffset, clamped));
      RescheduleUpdates(tasks, queue, currentTaskId, id, clamped, now, minimumReschedule, x);
      tasks := PrioritySet(tasks, id, clamped, now);
      Reschedule(id, meta, now);
      ConsistentIsValid(PrioritySet(previousTasks, id, clamped, now), Insert(RemoveAt(previousQueue, IndexOf(previousQueue, id)), x), currentTaskId);
    }

    /** Lines 81-82 of set_priority: the task's instance is erased and a new
        one scheduled from now. */
    method Reschedule(id: TaskId, meta: TaskMetadata<A>, now: int)
      requires IndexOf(queue, id) < |queue|
      requires Sorted(RemoveAt(queue, IndexOf(queue, id)))
      requires meta.priority >= 0.0
      modifies this
      ensures queue == Insert(RemoveAt(old(queue), IndexOf(old(queue), id)),
                              ExecutionInstance(id, now, now + ScheduleDelta(meta.maximumOffset, meta.priority)))
      ensures tasks == old(tasks) && currentTaskId == old(currentTaskId) && minimumReschedule == old(minimumReschedule)
    {
      RemoveScheduledInstance(id);
      Schedule(id, meta, now);
    }

    /** set_minimum_reschedule_time */
    method SetMinimumRescheduleTime(value: int)
      modifies this
      ensures minimumReschedule == value
      ensures tasks == old(tasks) && queue == old(queue) && currentTaskId == old(currentTaskId)
    {
      minimumReschedule := value;
    }

    /** The priority a task runs with: decayed when it was last set more
        than the adjustment offset before now, unchanged otherwise. */
    function AdjustedPriority(meta: TaskMetadata<A>, now: int): (r: real)
      ensures meta.lastPrioritySetTime + priorityAdjustmentOffset < now ==> r == Decayed(meta.priority)
      ensures meta.lastPrioritySetTime + priorityAdjustmentOffset >= now ==> r == meta.priority
      ensures meta.priority >= MinimumPriority ==> r >= MinimumPriority
    {
      if meta.lastPrioritySetTime + priorityAdjustmentOffset < now then Decayed(meta.priority) else meta.priority
    }

    /** One iteration of process_tasks at time now. With an empty queue, or
        when the earliest instance is not due yet, nothing happens (the
        thread would wait). Otherwise the earliest instance is popped, the
        task's priority decays when it was last set more than the adjustment
        offset ago, the task is re-scheduled from now with its (new)
        priority, and the task is returned to be run. */
    method ProcessNext(now: int) returns (ran: Option<A>)
      requires Valid()
      modifies this
      ensures Valid()
      ensures old(queue) == [] || old(queue)[0].scheduledFor > now ==>
                ran == None && tasks == old(tasks) && queue == old(queue)
      ensures old(queue) != [] && old(queue)[0].scheduledFor <= now ==>
                var id := old(queue)[0].taskId;
                var priority := AdjustedPriority(old(tasks)[id], now);
                && ran == Some(old(tasks)[id].task)
                && tasks == old(tasks)[id := old(tasks)[id].(priority := priority)]
                && queue == Insert(old(queue)[1..], ExecutionInstance(id, now, now + ScheduleDelta(old(tasks)[id].maximumOffset, priority)))
      ensures currentTaskId == old(currentTaskId) && minimumReschedule == old(minimumReschedule)
    {
      if queue == [] || queue[0].scheduledFor > now {
        return None;
      }
      var task := RunDue(now);
      return Some(task);
    }

    /** Lines 144-167 of process_tasks: the earliest instance is due. */
    method RunDue(now: int) returns (task: A)
      requires Valid() && queue != [] && queue[0].scheduledFor <= now
      modifies this
      ensures Valid()
      ensures var id := old(queue)[0].taskId;
              var priority := AdjustedPriority(old(tasks)[id], now);
              && task == old(tasks)[id].task
              && tasks == old(tasks)[id := old(tasks)[id].(priority := priority)]
              && queue == Insert(old(queue)[1..], ExecutionInstance(id, now, now + ScheduleDelta(old(tasks)[id].maximumOffset, priority)))
      ensures currentTaskId == old(currentTaskId) && minimumReschedule == old(minimumReschedule)
    {
      var instance := queue[0];
      assert instance.taskId in Ids(queue);
      var previous := tasks[instance.taskId];
      var priority := AdjustedPriority(previous, now);
      var meta := previous.(priority := priority);
      ghost var x := ExecutionInstance(instance.taskId, now, now + ScheduleDelta(meta.maximumOffset, meta.priority));
      ghost var target := ExecutionInstance(instance.taskId, now, now + ScheduleDelta(previous.maximumOffset, priority));
      assert target == x;
      PopKeepsConsistent(tasks, queue, currentTaskId, meta, x);
      ghost var previousTasks, previousQueue := tasks, queue;
      queue := queue[1..];
      tasks := tasks[instance.taskId := meta];
      Schedule(instance.taskId, meta, now);
      assert queue == Insert(previousQueue[1..], x);
      assert queue == Insert(previousQueue[1..], target);
      ConsistentIsValid(previousTasks[x.taskId := meta], Insert(previousQueue[1..], x), currentTaskId);
      return previous.task;
    }
  }

}
