/**
 * The run queues of the dummy scheduling class: an array of FIFO queues of
 * tasks, one per priority level, and the per-task fields the class keeps
 * (priority, static priority, time slice and aging counters). The parts that
 * the final scheduler and its earlier draft share live here.
 */
module RunQueue {

  /** A task is identified by a number; its fields live in the run queue's task map. */
  type TaskId = nat

  /** Number of priority levels, hence of queues. */
  const NBR_DUMMY_PRIO: int := 5

  datatype Option<T> = None | Some(value: T)

  /** The scheduling fields of one task: `prio`, `static_prio`, `dummy_se.time_slice`, `dummy_se.aging`. */
  datatype Task = Task(prio: int, staticPrio: int, timeSlice: nat, aging: nat)

  /**
   * The compile-time constants and tunables: `DUMMY_PRIO_UPPER_BOUND`, the
   * constant from which `get_list_prio` subtracts (`NBR_DUMMY_PRIO` in the
   * final version, `MAX_DUMMY_PRIO` in the draft), the time slice and the
   * age threshold.
   */
  datatype Config = Config(upperBound: int, listBase: int, timeslice: nat, ageThreshold: nat)

  /** `get_list_prio`: the queue index of a priority. */
  function ListPrio(cfg: Config, prio: int): int {
    cfg.listBase - (cfg.upperBound - prio) - 1
  }

  /** A priority whose queue index lies inside the queue array. */
  predicate Placeable(cfg: Config, prio: int) {
    0 <= ListPrio(cfg, prio) < NBR_DUMMY_PRIO
  }

  /**
   * The run queue: the queues (head first), the tasks' fields, `nr_running`,
   * the current task and the tasks `resched_task` has been called on.
   */
  datatype RqState = RqState(queues: seq<seq<TaskId>>, tasks: map<TaskId, Task>, nrRunning: int,
                             curr: TaskId, resched: set<TaskId>)

  /** No task occurs twice in one queue. */
  predicate NoDup(q: seq<TaskId>) {
    forall a, b :: 0 <= a < b < |q| ==> q[a] != q[b]
  }

  /** Everything but the placement rule: shape, known tasks, priorities in range, no duplicates. */
  predicate Shaped(cfg: Config, s: RqState) {
    && |s.queues| == NBR_DUMMY_PRIO
    && s.curr in s.tasks
    && (forall t :: t in s.tasks ==> Placeable(cfg, s.tasks[t].prio) && Placeable(cfg, s.tasks[t].staticPrio))
    && (forall i, j :: 0 <= i < |s.queues| && 0 <= j < |s.queues[i]| ==> s.queues[i][j] in s.tasks)
    && (forall i :: 0 <= i < |s.queues| ==> NoDup(s.queues[i]))
  }

  /** Every queued task other than `p` sits in the queue of its priority. */
  predicate PlacedBut(cfg: Config, s: RqState, p: Option<TaskId>)
    requires Shaped(cfg, s)
  {
    forall i, j :: 0 <= i < |s.queues| && 0 <= j < |s.queues[i]| && Some(s.queues[i][j]) != p ==>
      ListPrio(cfg, s.tasks[s.queues[i][j]].prio) == i
  }

  /** `p` is linked into at most one queue. */
  predicate AtMostOnce(s: RqState, p: TaskId) {
    forall m, n :: 0 <= m < n < |s.queues| && p in s.queues[m] ==> p !in s.queues[n]
  }

  /** The run queue invariant the scheduling class maintains. */
  predicate Valid(cfg: Config, s: RqState) {
    Shaped(cfg, s) && PlacedBut(cfg, s, None)
  }

  /** In a valid run queue a task sits in at most one queue: the one of its priority. */
  lemma ValidAtMostOnce(cfg: Config, s: RqState, p: TaskId)
    requires Valid(cfg, s)
    ensures AtMostOnce(s, p)
  {
    forall m, n | 0 <= m < n < |s.queues| && p in s.queues[m]
      ensures p !in s.queues[n]
    {
      var a :| 0 <= a < |s.queues[m]| && s.queues[m][a] == p;
      assert ListPrio(cfg, s.tasks[p].prio) == m;
      forall b | 0 <= b < |s.queues[n]|
        ensures s.queues[n][b] != p
      {
        assert ListPrio(cfg, s.tasks[s.queues[n][b]].prio) == n;
      }
    }
  }

  /** Two different queues never both hold `p`. */
  lemma AtMostOnceApart(s: RqState, p: TaskId, m: nat, n: nat)
    requires AtMostOnce(s, p) && m < |s.queues| && n < |s.queues| && m != n
    ensures !(p in s.queues[m] && p in s.queues[n])
  {
  }

  /** A task whose priority maps to queue `i` is in no other queue. */
  lemma NotElsewhere(cfg: Config, s: RqState, p: TaskId, i: int)
    requires Valid(cfg, s) && p in s.tasks && ListPrio(cfg, s.tasks[p].prio) == i
    ensures forall k :: 0 <= k < NBR_DUMMY_PRIO && k != i ==> Without(s.queues[k], p) == s.queues[k]
  {
    forall k | 0 <= k < NBR_DUMMY_PRIO && k != i
      ensures Without(s.queues[k], p) == s.queues[k]
    {
      forall j | 0 <= j < |s.queues[k]|
        ensures s.queues[k][j] != p
      {
        assert ListPrio(cfg, s.tasks[s.queues[k][j]].prio) == k;
      }
      WithoutMembers(s.queues[k], p);
    }
  }

  /** A task of queue `m` is in no other queue. */
  lemma NotInOtherQueue(cfg: Config, s: RqState, p: TaskId, m: int)
    requires Valid(cfg, s) && 0 <= m < |s.queues| && p in s.queues[m]
    ensures forall k :: 0 <= k < |s.queues| && k != m ==> p !in s.queues[k]
  {
    ValidAtMostOnce(cfg, s, p);
    forall k | 0 <= k < |s.queues| && k != m
      ensures p !in s.queues[k]
    {
      AtMostOnceApart(s, p, m, k);
    }
  }

  /** `t` is linked into some queue. */
  predicate Queued(s: RqState, t: TaskId) {
    exists i :: 0 <= i < |s.queues| && t in s.queues[i]
  }

  /** Total number of queued tasks. */
  function Total(qs: seq<seq<TaskId>>): nat {
    if qs == [] then 0 else Total(qs[..|qs| - 1]) + |qs[|qs| - 1]|
  }

  /** `nr_running` counts exactly the queued tasks. */
  predicate Counted(s: RqState) {
    s.nrRunning == Total(s.queues)
  }

  // ----- list_del_init -----

  /** `q` with `p` unlinked. */
  function Without(q: seq<TaskId>, p: TaskId): seq<TaskId> {
    if q == [] then []
    else Without(q[..|q| - 1], p) + (if q[|q| - 1] == p then [] else [q[|q| - 1]])
  }

  /** Unlinking keeps exactly the other tasks and keeps a queue free of duplicates. */
  lemma {:induction false} WithoutMembers(q: seq<TaskId>, p: TaskId)
    ensures forall x :: x in Without(q, p) <==> x in q && x != p
    ensures NoDup(q) ==> NoDup(Without(q, p))
    ensures p !in q ==> Without(q, p) == q
    ensures NoDup(q) && p in q ==> |Without(q, p)| == |q| - 1
    ensures |Without(q, p)| <= |q|
  {
    if q != [] {
      var front := q[..|q| - 1];
      var last := q[|q| - 1];
      assert q == front + [last];
      WithoutMembers(front, p);
      if NoDup(q) {
        assert NoDup(front);
        assert last !in front;
      }
    }
  }

  /**
   * In a queue without duplicates, unlinking the entry at position `j`
   * splices its neighbours together: the entries before it and after it
   * keep their order.
   */
  lemma {:induction false} WithoutAt(q: seq<TaskId>, p: TaskId, j: int)
    requires NoDup(q) && 0 <= j < |q| && q[j] == p
    ensures Without(q, p) == q[..j] + q[j + 1..]
  {
    var front := q[..|q| - 1];
    var last := q[|q| - 1];
    assert q == front + [last];
    assert NoDup(front);
    if j == |q| - 1 {
      assert p !in front;
      WithoutMembers(front, p);
      assert q[..j] == front && q[j + 1..] == [];
    } else {
      assert last != p;
      WithoutAt(front, p, j);
      assert front[..j] == q[..j];
      assert front[j + 1..] + [last] == q[j + 1..];
    }
  }

  /** Unlinking from a queue with `p` appended at its tail gives the queue without `p`. */
  lemma WithoutAppended(q: seq<TaskId>, p: TaskId)
    ensures Without(q + [p], p) == Without(q, p)
  {
    assert (q + [p])[..|q + [p]| - 1] == q;
  }

  // ----- _enqueue_task_dummy / _dequeue_task_dummy -----

  /** `_enqueue_task_dummy`: `list_add_tail` onto the queue of the task's priority. */
  function AddTail(cfg: Config, s: RqState, p: TaskId): RqState
    requires p in s.tasks && Placeable(cfg, s.tasks[p].prio) && |s.queues| == NBR_DUMMY_PRIO
  {
    var i := ListPrio(cfg, s.tasks[p].prio);
    s.(queues := s.queues[i := s.queues[i] + [p]])
  }

  /** `_dequeue_task_dummy`: `list_del_init` unlinks the task from whichever queue holds it. */
  function Unlink(s: RqState, p: TaskId): RqState {
    s.(queues := seq(|s.queues|, i requires 0 <= i < |s.queues| => Without(s.queues[i], p)))
  }

  /**
   * `enqueue_task_dummy` (the same in both versions): link at the tail,
   * restart a used-up time slice, count one more running task.
   */
  function Enqueue(cfg: Config, s: RqState, p: TaskId): RqState
    requires p in s.tasks && Placeable(cfg, s.tasks[p].prio) && |s.queues| == NBR_DUMMY_PRIO
  {
    var t := s.tasks[p];
    var s1 := AddTail(cfg, s, p);
    s1.(tasks := s1.tasks[p := if t.timeSlice >= cfg.timeslice then t.(timeSlice := 0) else t],
        nrRunning := s1.nrRunning + 1)
  }

  /**
   * Enqueue appends the task at the tail of the queue of its priority and
   * leaves the other queues alone; it restarts the time slice exactly when
   * it is used up, changes no other field and no other task, and counts one
   * more running task.
   */
  lemma EnqueueEffect(cfg: Config, s: RqState, p: TaskId)
    requires p in s.tasks && Placeable(cfg, s.tasks[p].prio) && |s.queues| == NBR_DUMMY_PRIO
    ensures var r := Enqueue(cfg, s, p);
      var i := ListPrio(cfg, s.tasks[p].prio);
      && |r.queues| == NBR_DUMMY_PRIO
      && r.queues[i] == s.queues[i] + [p]
      && (forall k :: 0 <= k < NBR_DUMMY_PRIO && k != i ==> r.queues[k] == s.queues[k])
      && r.tasks.Keys == s.tasks.Keys
      && (r.tasks[p].timeSlice == 0 <==> s.tasks[p].timeSlice >= cfg.timeslice || s.tasks[p].timeSlice == 0)
      && (s.tasks[p].timeSlice < cfg.timeslice ==> r.tasks[p] == s.tasks[p])
      && r.tasks[p] == s.tasks[p].(timeSlice := r.tasks[p].timeSlice)
      && (forall t :: t in s.tasks && t != p ==> r.tasks[t] == s.tasks[t])
      && r.nrRunning == s.nrRunning + 1
      && r.curr == s.curr && r.resched == s.resched
  {
  }

  /** Enqueueing a task that is not queued keeps the run queue valid and `nr_running` exact. */
  lemma EnqueueValid(cfg: Config, s: RqState, p: TaskId)
    requires Valid(cfg, s) && p in s.tasks && !Queued(s, p)
    ensures Valid(cfg, Enqueue(cfg, s, p)) && Queued(Enqueue(cfg, s, p), p)
    ensures Counted(s) ==> Counted(Enqueue(cfg, s, p))
  {
    var r := Enqueue(cfg, s, p);
    var i := ListPrio(cfg, s.tasks[p].prio);
    assert p in r.queues[i];
    forall k | 0 <= k < |r.queues|
      ensures NoDup(r.queues[k])
    {
      if k == i {
        assert p !in s.queues[i];
      }
    }
    TotalUpdate(s.queues, i, s.queues[i] + [p]);
  }

  /** Changing the fields of a task that is in no queue keeps a run queue valid. */
  lemma RetaskValid(cfg: Config, s: RqState, p: TaskId, t: Task)
    requires Valid(cfg, s) && p in s.tasks && !Queued(s, p)
    requires Placeable(cfg, t.prio) && Placeable(cfg, t.staticPrio)
    ensures Valid(cfg, s.(tasks := s.tasks[p := t]))
  {
    var r := s.(tasks := s.tasks[p := t]);
    forall i, j | 0 <= i < |r.queues| && 0 <= j < |r.queues[i]|
      ensures r.queues[i][j] != p
    {
      assert r.queues[i][j] in s.queues[i];
    }
  }

  /** Replacing one queue changes the total by the difference of the lengths. */
  lemma {:induction false} TotalUpdate(qs: seq<seq<TaskId>>, i: nat, q: seq<TaskId>)
    requires i < |qs|
    ensures Total(qs[i := q]) == Total(qs) - |qs[i]| + |q|
  {
    var n := |qs| - 1;
    if i < n {
      TotalUpdate(qs[..n], i, q);
      assert qs[i := q][..n] == qs[..n][i := q];
    } else {
      assert qs[i := q][..n] == qs[..n];
    }
  }

  /**
   * Unlinking a task from a run queue valid apart from that task's own
   * placement leaves it in no queue and the run queue valid; if it was
   * queued, one task fewer is queued.
   */
  lemma UnlinkValid(cfg: Config, s: RqState, p: TaskId)
    requires Shaped(cfg, s) && PlacedBut(cfg, s, Some(p)) && AtMostOnce(s, p)
    ensures Valid(cfg, Unlink(s, p)) && !Queued(Unlink(s, p), p)
    ensures Unlink(s, p).tasks == s.tasks
    ensures !Queued(s, p) ==> Unlink(s, p).queues == s.queues
    ensures Total(Unlink(s, p).queues) == Total(s.queues) - (if Queued(s, p) then 1 else 0)
  {
    var r := Unlink(s, p);
    forall i | 0 <= i < |s.queues|
      ensures r.queues[i] == Without(s.queues[i], p)
      ensures forall x :: x in r.queues[i] <==> x in s.queues[i] && x != p
      ensures NoDup(r.queues[i])
    {
      WithoutMembers(s.queues[i], p);
    }
    forall i, j | 0 <= i < |r.queues| && 0 <= j < |r.queues[i]|
      ensures r.queues[i][j] in s.queues[i] && r.queues[i][j] != p
    {
      assert r.queues[i][j] in r.queues[i];
    }
    if !Queued(s, p) {
      forall i | 0 <= i < |s.queues| ensures r.queues[i] == s.queues[i] {
        assert p !in s.queues[i];
        WithoutMembers(s.queues[i], p);
      }
    }
    UnlinkTotal(cfg, s, p);
  }

  /** The count part of UnlinkValid: at most one queue held `p`, once. */
  lemma UnlinkTotal(cfg: Config, s: RqState, p: TaskId)
    requires Shaped(cfg, s) && AtMostOnce(s, p)
    ensures Total(Unlink(s, p).queues) == Total(s.queues) - (if Queued(s, p) then 1 else 0)
  {
    var qs := s.queues;
    var rs := Unlink(s, p).queues;
    forall m | 0 <= m < |qs|
      ensures rs[m] == Without(qs[m], p)
      ensures p in qs[m] ==> |rs[m]| == |qs[m]| - 1
      ensures p !in qs[m] ==> rs[m] == qs[m]
    {
      WithoutMembers(qs[m], p);
    }
    if Queued(s, p) {
      var i :| 0 <= i < |qs| && p in qs[i];
      forall m | 0 <= m < |qs| && m != i
        ensures p !in qs[m]
      {
        AtMostOnceApart(s, p, m, i);
      }
      TotalPointwise(qs, rs, i, 1);
    } else {
      TotalPointwise(qs, rs, 0, 0);
    }
  }

  /**
   * If all queues but `i` keep their lengths and queue `i` loses `d`
   * elements, the total drops by `d`.
   */
  lemma {:induction false} TotalPointwise(qs: seq<seq<TaskId>>, rs: seq<seq<TaskId>>, i: nat, d: nat)
    requires |qs| == |rs| && (i < |qs| || d == 0)
    requires forall m :: 0 <= m < |qs| && m != i ==> |rs[m]| == |qs[m]|
    requires i < |qs| ==> |rs[i]| + d == |qs[i]|
    ensures Total(rs) + d == Total(qs)
  {
    if qs != [] {
      var n := |qs| - 1;
      if i < n {
        TotalPointwise(qs[..n], rs[..n], i, d);
      } else {
        TotalPointwise(qs[..n], rs[..n], i, 0);
      }
    }
  }

  // ----- the run queue object -----

  /** `struct rq` as far as the dummy class uses it; its fields change in place. */
  class DummyRq {
    const cfg: Config
    var queues: seq<seq<TaskId>>
    var tasks: map<TaskId, Task>
    var nrRunning: int
    var curr: TaskId
    var resched: set<TaskId>

    /** The fields as one value, to state what an operation does. */
    function State(): RqState
      reads this
    {
      RqState(queues, tasks, nrRunning, curr, resched)
    }

    /** `init_dummy_rq`: one empty queue per priority level; the kernel supplies the tasks and `curr`. */
    constructor (cfg: Config, tasks: map<TaskId, Task>, curr: TaskId)
      ensures this.cfg == cfg && this.tasks == tasks && this.curr == curr
      ensures queues == seq(NBR_DUMMY_PRIO, _ => []) && nrRunning == 0 && resched == {}
    {
      this.cfg := cfg;
      this.tasks := tasks;
      this.curr := curr;
      nrRunning := 0;
      resched := {};
      var qs: seq<seq<TaskId>> := [];
      var i := 0;
      while i < NBR_DUMMY_PRIO
        invariant 0 <= i <= NBR_DUMMY_PRIO
        invariant qs == seq(i, _ => [])
      {
        qs := qs + [[]];
        i := i + 1;
      }
      queues := qs;
    }

    /** `_enqueue_task_dummy`. */
    method AddTailTask(p: TaskId)
      requires p in tasks && Placeable(cfg, tasks[p].prio) && |queues| == NBR_DUMMY_PRIO
      modifies this
      ensures State() == AddTail(cfg, old(State()), p)
    {
      var i := ListPrio(cfg, tasks[p].prio);
      queues := queues[i := queues[i] + [p]];
    }

    /** `_dequeue_task_dummy`. */
    method UnlinkTask(p: TaskId)
      modifies this
      ensures State() == Unlink(old(State()), p)
    {
      queues := seq(|queues|, i requires 0 <= i < |queues| reads this => Without(queues[i], p));
    }

    /** `enqueue_task_dummy`. */
    method EnqueueTask(p: TaskId)
      requires p in tasks && Placeable(cfg, tasks[p].prio) && |queues| == NBR_DUMMY_PRIO
      modifies this
      ensures State() == Enqueue(cfg, old(State()), p)
    {
      AddTailTask(p);
      if tasks[p].timeSlice >= cfg.timeslice {
        tasks := tasks[p := tasks[p].(timeSlice := 0)];
      }
      nrRunning := nrRunning + 1;
    }

    /**
     * `pick_next_task_dummy`: scan the queues from index 0 and return the
     * head of the first non-empty one; none when all are empty.
     */
    method PickNextTask() returns (next: Option<TaskId>)
      requires |queues| == NBR_DUMMY_PRIO
      ensures next.None? <==> forall i :: 0 <= i < NBR_DUMMY_PRIO ==> queues[i] == []
      ensures next.Some? ==> exists i :: 0 <= i < NBR_DUMMY_PRIO && queues[i] != [] && next.value == queues[i][0]
                                        && forall k :: 0 <= k < i ==> queues[k] == []
    {
      var i := 0;
      while i < NBR_DUMMY_PRIO
        invariant 0 <= i <= NBR_DUMMY_PRIO
        invariant forall k :: 0 <= k < i ==> queues[k] == []
      {
        if queues[i] != [] {
          return Some(queues[i][0]);
        }
        i := i + 1;
      }
      return None;
    }
  }
}
