/**
 * The final dummy scheduling class: five FIFO run queues, a round-robin
 * time slice and aging that promotes a waiting task by one level.
 * `resched_task` is modelled as adding the task to the run queue's
 * `resched` set.
 */
module DummySched {
  import opened RunQueue

  /** Here `get_list_prio` subtracts from `NBR_DUMMY_PRIO`. */
  predicate FinalConfig(cfg: Config) {
    cfg.listBase == NBR_DUMMY_PRIO
  }

  // ----- dequeue_task_dummy -----

  /** `dequeue_task_dummy`: unlink the task and count one running task fewer. */
  function Dequeue(s: RqState, p: TaskId): RqState {
    var s1 := Unlink(s, p);
    s1.(nrRunning := s1.nrRunning - 1)
  }

  /**
   * Dequeue leaves the task in no queue and every other task where it was,
   * changes no task's fields and counts one running task fewer; from a run
   * queue valid apart from the task's own placement it gives a valid one.
   */
  lemma DequeueEffect(cfg: Config, s: RqState, p: TaskId)
    requires Shaped(cfg, s) && PlacedBut(cfg, s, Some(p)) && AtMostOnce(s, p)
    ensures var r := Dequeue(s, p);
      && Valid(cfg, r) && !Queued(r, p)
      && |r.queues| == |s.queues|
      && (forall i :: 0 <= i < |s.queues| ==> r.queues[i] == Without(s.queues[i], p))
      && (forall i, x :: 0 <= i < |s.queues| ==> (x in r.queues[i] <==> x in s.queues[i] && x != p))
      && r.tasks == s.tasks && r.curr == s.curr && r.resched == s.resched
      && r.nrRunning == s.nrRunning - 1
      && (Counted(s) && Queued(s, p) ==> Counted(r))
  {
    UnlinkValid(cfg, s, p);
    forall i | 0 <= i < |s.queues| {
      WithoutMembers(s.queues[i], p);
    }
  }

  /** Dequeueing a task just enqueued restores the queues and the running count. */
  lemma DequeueUndoesEnqueue(cfg: Config, s: RqState, p: TaskId)
    requires Valid(cfg, s) && p in s.tasks && !Queued(s, p)
    ensures Dequeue(Enqueue(cfg, s, p), p).queues == s.queues
    ensures Dequeue(Enqueue(cfg, s, p), p).nrRunning == s.nrRunning
  {
    var r := Dequeue(Enqueue(cfg, s, p), p);
    var e := Enqueue(cfg, s, p);
    var i := ListPrio(cfg, s.tasks[p].prio);
    forall k | 0 <= k < |s.queues|
      ensures r.queues[k] == s.queues[k]
    {
      assert p !in s.queues[k];
      WithoutMembers(s.queues[k], p);
      if k == i {
        WithoutAppended(s.queues[k], p);
      }
    }
  }

  /**
   * Giving a valid run queue's task new fields, then dequeueing and
   * enqueueing it, gives a valid run queue; the running count is unchanged
   * and stays exact if the task was queued.
   */
  lemma RequeueValid(cfg: Config, s: RqState, p: TaskId, t: Task)
    requires Valid(cfg, s) && p in s.tasks
    requires Placeable(cfg, t.prio) && Placeable(cfg, t.staticPrio)
    ensures var r := Enqueue(cfg, Dequeue(s.(tasks := s.tasks[p := t]), p), p);
      Valid(cfg, r) && r.nrRunning == s.nrRunning && (Counted(s) && Queued(s, p) ==> Counted(r))
  {
    var s1 := s.(tasks := s.tasks[p := t]);
    ValidAtMostOnce(cfg, s, p);
    DequeueEffect(cfg, s1, p);
    EnqueueValid(cfg, Dequeue(s1, p), p);
  }

  // ----- yield_task_dummy -----

  /**
   * `yield_task_dummy`: dequeue the current task; if it has aged past the
   * threshold, reset its aging and its priority to the static one; enqueue
   * it again.
   */
  function Yield(cfg: Config, s: RqState): (r: RqState)
    requires Valid(cfg, s)
    ensures Valid(cfg, r)
  {
    var c := s.curr;
    var s1 := Dequeue(s, c);
    var t := s1.tasks[c];
    var t1 := if t.aging >= cfg.ageThreshold then t.(aging := 0, prio := t.staticPrio) else t;
    RequeueValid(cfg, s, c, t1);
    assert s1.(tasks := s1.tasks[c := t1]) == Dequeue(s.(tasks := s.tasks[c := t1]), c);
    Enqueue(cfg, s1.(tasks := s1.tasks[c := t1]), c)
  }

  /**
   * Yield leaves the current task at the tail of the queue of its (possibly
   * reset) priority, every other task where it was, and the running count
   * unchanged; priority and aging are reset exactly when aging has reached
   * the threshold, the enqueue restarts a used-up time slice, and no
   * reschedule is requested.
   */
  lemma YieldEffect(cfg: Config, s: RqState)
    requires Valid(cfg, s)
    ensures var r := Yield(cfg, s);
      var c := s.curr;
      var t := s.tasks[c];
      && r.curr == c && r.resched == s.resched
      && r.nrRunning == s.nrRunning
      && r.tasks.Keys == s.tasks.Keys
      && (Counted(s) && Queued(s, c) ==> Counted(r))
      && (t.aging >= cfg.ageThreshold ==> r.tasks[c].aging == 0 && r.tasks[c].prio == t.staticPrio)
      && r.tasks[c].timeSlice == (if t.timeSlice >= cfg.timeslice then 0 else t.timeSlice)
      && (t.aging < cfg.ageThreshold ==> r.tasks[c].aging == t.aging && r.tasks[c].prio == t.prio)
      && r.tasks[c].staticPrio == t.staticPrio
      && (var i := ListPrio(cfg, r.tasks[c].prio);
          r.queues[i] == Without(s.queues[i], c) + [c])
      && (forall k :: 0 <= k < NBR_DUMMY_PRIO && k != ListPrio(cfg, r.tasks[c].prio) ==>
            r.queues[k] == Without(s.queues[k], c))
      && (forall x :: x in s.tasks && x != c ==> r.tasks[x] == s.tasks[x])
  {
    var c := s.curr;
    var s1 := Dequeue(s, c);
    var t := s1.tasks[c];
    var t1 := if t.aging >= cfg.ageThreshold then t.(aging := 0, prio := t.staticPrio) else t;
    var s2 := s1.(tasks := s1.tasks[c := t1]);
    RequeueValid(cfg, s, c, t1);
    assert s2 == Dequeue(s.(tasks := s.tasks[c := t1]), c);
    EnqueueEffect(cfg, s2, c);
  }

  // ----- check_preempt_curr_dummy -----

  /** `check_preempt_curr_dummy`: reschedule the current task if `p` belongs to a lower-index queue. */
  function CheckPreempt(cfg: Config, s: RqState, p: TaskId): (r: RqState)
    requires p in s.tasks && s.curr in s.tasks
  {
    if ListPrio(cfg, s.tasks[p].prio) < ListPrio(cfg, s.tasks[s.curr].prio)
    then s.(resched := s.resched + {s.curr})
    else s
  }

  /**
   * Check-preempt changes nothing but the reschedule requests, and requests
   * one for the current task (and no other) exactly when `p` maps to a
   * lower-index queue than the current task.
   */
  lemma CheckPreemptEffect(cfg: Config, s: RqState, p: TaskId)
    requires p in s.tasks && s.curr in s.tasks
    ensures var r := CheckPreempt(cfg, s, p);
      && r.(resched := s.resched) == s
      && r.resched - s.resched <= {s.curr} && s.resched <= r.resched
      && (s.curr !in s.resched ==>
            (s.curr in r.resched <==> ListPrio(cfg, s.tasks[p].prio) < ListPrio(cfg, s.tasks[s.curr].prio)))
  {
  }

  // ----- task_tick_dummy: the time slice -----

  /**
   * The first half of `task_tick_dummy`: count one more tick; when the time
   * slice is used up, restore the static priority, clear aging, move the
   * task to the tail of its queue and request a reschedule.
   */
  function TimeSliceTick(cfg: Config, s: RqState): (r: RqState)
    requires Valid(cfg, s)
    ensures Valid(cfg, r)
  {
    var c := s.curr;
    var t := s.tasks[c].(timeSlice := s.tasks[c].timeSlice + 1);
    var s1 := s.(tasks := s.tasks[c := t]);
    if t.timeSlice >= cfg.timeslice then
      var t2 := t.(prio := t.staticPrio, aging := 0);
      RequeueValid(cfg, s, c, t2);
      assert s1.(tasks := s1.tasks[c := t2]) == s.(tasks := s.tasks[c := t2]);
      var s3 := Enqueue(cfg, Dequeue(s1.(tasks := s1.tasks[c := t2]), c), c);
      s3.(resched := s3.resched + {c})
    else
      assert forall i, j :: 0 <= i < |s1.queues| && 0 <= j < |s1.queues[i]| ==>
        s1.tasks[s1.queues[i][j]].prio == s.tasks[s.queues[i][j]].prio;
      s1
  }

  /**
   * A tick adds one to the time slice. When that reaches the configured
   * slice, the current task gets its static priority back, aging 0 and a
   * fresh slice, sits at the tail of the queue of its static priority, has
   * left every other queue, and is the one task added to the reschedule
   * requests; the running count is unchanged. Otherwise nothing else
   * changes.
   */
  lemma TimeSliceTickEffect(cfg: Config, s: RqState)
    requires Valid(cfg, s)
    ensures var r := TimeSliceTick(cfg, s);
      var c := s.curr;
      var t := s.tasks[c];
      && r.curr == c && r.nrRunning == s.nrRunning
      && r.tasks.Keys == s.tasks.Keys
      && (t.timeSlice + 1 < cfg.timeslice ==> r == s.(tasks := s.tasks[c := t.(timeSlice := t.timeSlice + 1)]))
      && (t.timeSlice + 1 >= cfg.timeslice ==>
            && r.tasks[c] == t.(prio := t.staticPrio, aging := 0, timeSlice := 0)
            && r.resched == s.resched + {c}
            && (var i := ListPrio(cfg, t.staticPrio);
                r.queues[i] == Without(s.queues[i], c) + [c])
            && (forall k :: 0 <= k < NBR_DUMMY_PRIO && k != ListPrio(cfg, t.staticPrio) ==>
                  r.queues[k] == Without(s.queues[k], c))
            && (forall x :: x in s.tasks && x != c ==> r.tasks[x] == s.tasks[x]))
  {
    var c := s.curr;
    var t := s.tasks[c].(timeSlice := s.tasks[c].timeSlice + 1);
    if t.timeSlice >= cfg.timeslice {
      var t2 := t.(prio := t.staticPrio, aging := 0);
      var s2 := s.(tasks := s.tasks[c := t2]);
      ValidAtMostOnce(cfg, s, c);
      DequeueEffect(cfg, s2, c);
      EnqueueEffect(cfg, Dequeue(s2, c), c);
    }
  }

  // ----- task_tick_dummy: aging -----

  /**
   * What one pass of the aging loop does to a task's fields: one more
   * aging tick; past the threshold, and above the highest priority, aging
   * restarts, the priority rises by one level and the enqueue restarts a
   * used-up time slice.
   */
  function Aged(cfg: Config, t: Task): Task {
    if t.aging + 1 >= cfg.ageThreshold && t.prio > cfg.upperBound - 5 + 1 then
      t.(aging := 0, prio := t.prio - 1, timeSlice := if t.timeSlice >= cfg.timeslice then 0 else t.timeSlice)
    else t.(aging := t.aging + 1)
  }

  /** Promotion needs aging past the threshold and a priority above `DUMMY_PRIO_UPPER_BOUND - 4`. */
  predicate Promoted(cfg: Config, t: Task) {
    t.aging + 1 >= cfg.ageThreshold && t.prio > cfg.upperBound - 5 + 1
  }

  /**
   * The promotion of an aged entity: clear aging, raise the priority by one
   * level, requeue it, request its rescheduling and check whether it
   * preempts the current task.
   */
  function Promote(cfg: Config, s: RqState, p: TaskId): (r: RqState)
    requires FinalConfig(cfg) && Valid(cfg, s) && p in s.tasks && s.tasks[p].prio > cfg.upperBound - 5 + 1
    ensures Valid(cfg, r) && r.tasks.Keys == s.tasks.Keys && r.curr == s.curr
  {
    var t1 := s.tasks[p].(aging := 0, prio := s.tasks[p].prio - 1);
    RequeueValid(cfg, s, p, t1);
    var s2 := Enqueue(cfg, Dequeue(s.(tasks := s.tasks[p := t1]), p), p);
    CheckPreempt(cfg, s2.(resched := s2.resched + {p}), p)
  }

  /** The aging tick alone: one more on the entity's counter. */
  function AgingTick(s: RqState, p: TaskId): RqState
    requires p in s.tasks
  {
    s.(tasks := s.tasks[p := s.tasks[p].(aging := s.tasks[p].aging + 1)])
  }

  /** The aging tick changes no priority, so the run queue stays valid. */
  lemma AgingTickValid(cfg: Config, s: RqState, p: TaskId)
    requires Valid(cfg, s) && p in s.tasks
    ensures Valid(cfg, AgingTick(s, p))
  {
    var s1 := AgingTick(s, p);
    forall i, j | 0 <= i < |s1.queues| && 0 <= j < |s1.queues[i]|
      ensures s1.tasks[s1.queues[i][j]].prio == s.tasks[s.queues[i][j]].prio
    {
    }
  }

  /**
   * The body of the aging loop for one queued entity: age it, and promote
   * it once its aging reaches the threshold unless it is at the highest
   * priority.
   */
  function AgeOne(cfg: Config, s: RqState, p: TaskId): (r: RqState)
    requires FinalConfig(cfg) && Valid(cfg, s) && p in s.tasks
    ensures Valid(cfg, r) && r.tasks.Keys == s.tasks.Keys && r.curr == s.curr
  {
    var s1 := AgingTick(s, p);
    AgingTickValid(cfg, s, p);
    if s1.tasks[p].aging >= cfg.ageThreshold && s1.tasks[p].prio > cfg.upperBound - 5 + 1
    then Promote(cfg, s1, p)
    else s1
  }

  /** Aging one entity changes only that entity's fields, as `Aged` says. */
  lemma AgeOneTasks(cfg: Config, s: RqState, p: TaskId)
    requires FinalConfig(cfg) && Valid(cfg, s) && p in s.tasks
    ensures AgeOne(cfg, s, p).tasks == s.tasks[p := Aged(cfg, s.tasks[p])]
  {
    var s1 := AgingTick(s, p);
    AgingTickValid(cfg, s, p);
    var t := s1.tasks[p];
    if t.aging >= cfg.ageThreshold && t.prio > cfg.upperBound - 5 + 1 {
      PromoteTasks(cfg, s1, p);
      assert s1.tasks[p := Aged(cfg, s.tasks[p])] == s.tasks[p := Aged(cfg, s.tasks[p])];
    }
  }

  /** A promotion changes only the promoted task's aging, priority and time slice. */
  lemma PromoteTasks(cfg: Config, s: RqState, p: TaskId)
    requires FinalConfig(cfg) && Valid(cfg, s) && p in s.tasks && s.tasks[p].prio > cfg.upperBound - 5 + 1
    ensures var t := s.tasks[p];
      Promote(cfg, s, p).tasks ==
        s.tasks[p := t.(aging := 0, prio := t.prio - 1, timeSlice := if t.timeSlice >= cfg.timeslice then 0 else t.timeSlice)]
  {
    var t1 := s.tasks[p].(aging := 0, prio := s.tasks[p].prio - 1);
    RequeueTasks(cfg, s, p, t1);
  }

  /** Requeueing a task with new fields changes only that task, and only its time slice beyond the new fields. */
  lemma RequeueTasks(cfg: Config, s: RqState, p: TaskId, t: Task)
    requires |s.queues| == NBR_DUMMY_PRIO && p in s.tasks && Placeable(cfg, t.prio)
    ensures Enqueue(cfg, Dequeue(s.(tasks := s.tasks[p := t]), p), p).tasks ==
      s.tasks[p := t.(timeSlice := if t.timeSlice >= cfg.timeslice then 0 else t.timeSlice)]
  {
  }

  /**
   * Aging an entity of queue `i` touches at most queues `i` and `i - 1`: a
   * promoted entity leaves queue `i` for the tail of queue `i - 1`, which
   * is its new priority's queue; otherwise no queue changes.
   */
  lemma AgeOneQueues(cfg: Config, s: RqState, p: TaskId, i: int)
    requires FinalConfig(cfg) && Valid(cfg, s) && p in s.tasks && ListPrio(cfg, s.tasks[p].prio) == i
    ensures var r := AgeOne(cfg, s, p);
      && (forall k :: 0 <= k < NBR_DUMMY_PRIO && k != i && k != i - 1 ==> r.queues[k] == s.queues[k])
      && (Promoted(cfg, s.tasks[p]) ==>
            0 < i && r.queues[i] == Without(s.queues[i], p) && r.queues[i - 1] == s.queues[i - 1] + [p])
      && (!Promoted(cfg, s.tasks[p]) ==> r.queues == s.queues)
  {
    var s1 := AgingTick(s, p);
    AgingTickValid(cfg, s, p);
    var t := s1.tasks[p];
    if t.aging >= cfg.ageThreshold && t.prio > cfg.upperBound - 5 + 1 {
      PromoteQueues(cfg, s1, p, i);
    }
  }

  /** A promotion moves the entity from queue `i` to the tail of queue `i - 1`, and touches no other queue. */
  lemma PromoteQueues(cfg: Config, s: RqState, p: TaskId, i: int)
    requires FinalConfig(cfg) && Valid(cfg, s) && p in s.tasks && s.tasks[p].prio > cfg.upperBound - 5 + 1
    requires ListPrio(cfg, s.tasks[p].prio) == i
    ensures var r := Promote(cfg, s, p);
      && 0 < i && r.queues[i] == Without(s.queues[i], p) && r.queues[i - 1] == s.queues[i - 1] + [p]
      && (forall k :: 0 <= k < NBR_DUMMY_PRIO && k != i && k != i - 1 ==> r.queues[k] == s.queues[k])
  {
    var t1 := s.tasks[p].(aging := 0, prio := s.tasks[p].prio - 1);
    RequeueQueues(cfg, s, p, t1, i);
  }

  /**
   * Requeueing a task of queue `i` under a priority of another queue `j`
   * takes it out of queue `i`, appends it to queue `j` and leaves the other
   * queues alone.
   */
  lemma RequeueQueues(cfg: Config, s: RqState, p: TaskId, t: Task, i: int)
    requires Valid(cfg, s) && p in s.tasks && ListPrio(cfg, s.tasks[p].prio) == i
    requires Placeable(cfg, t.prio) && Placeable(cfg, t.staticPrio) && ListPrio(cfg, t.prio) != i
    ensures var r := Enqueue(cfg, Dequeue(s.(tasks := s.tasks[p := t]), p), p);
      var j := ListPrio(cfg, t.prio);
      && r.queues[i] == Without(s.queues[i], p)
      && r.queues[j] == s.queues[j] + [p]
      && (forall k :: 0 <= k < NBR_DUMMY_PRIO && k != i && k != j ==> r.queues[k] == s.queues[k])
  {
    var s1 := s.(tasks := s.tasks[p := t]);
    ValidAtMostOnce(cfg, s, p);
    NotElsewhere(cfg, s, p, i);
    var d := Dequeue(s1, p);
    assert forall k :: 0 <= k < NBR_DUMMY_PRIO ==> d.queues[k] == Without(s.queues[k], p);
    EnqueueEffect(cfg, d, p);
  }

  /** The aging loop over a snapshot `ps` of one queue, in order. */
  function AgeList(cfg: Config, s: RqState, ps: seq<TaskId>): (r: RqState)
    requires FinalConfig(cfg) && Valid(cfg, s) && forall p :: p in ps ==> p in s.tasks
    ensures Valid(cfg, r) && r.tasks.Keys == s.tasks.Keys && r.curr == s.curr
    decreases |ps|
  {
    if ps == [] then s
    else
      var front := AgeList(cfg, s, ps[..|ps| - 1]);
      AgeOne(cfg, front, ps[|ps| - 1])
  }

  /** The aging loop over queues 1 .. n - 1, each snapshotted when the loop reaches it. */
  function AgeLevels(cfg: Config, s: RqState, n: nat): (r: RqState)
    requires FinalConfig(cfg) && Valid(cfg, s) && 1 <= n <= NBR_DUMMY_PRIO
    ensures Valid(cfg, r) && r.tasks.Keys == s.tasks.Keys && r.curr == s.curr
    decreases n
  {
    if n == 1 then s
    else
      var t := AgeLevels(cfg, s, n - 1);
      AgeList(cfg, t, t.queues[n - 1])
  }

  /** `task_tick_dummy`: the time-slice step, then the aging pass over queues 1 .. 4. */
  function Tick(cfg: Config, s: RqState): (r: RqState)
    requires FinalConfig(cfg) && Valid(cfg, s)
    ensures Valid(cfg, r)
  {
    AgeLevels(cfg, TimeSliceTick(cfg, s), NBR_DUMMY_PRIO)
  }

  /** `t` sits in one of the queues 1 .. n - 1. */
  predicate InLevels(s: RqState, t: TaskId, n: nat) {
    exists i :: 1 <= i < n && i < |s.queues| && t in s.queues[i]
  }

  /**
   * Aging a duplicate-free snapshot of queue `i` ages each of its entities
   * once, as `Aged` says, leaves every other task's fields alone and touches
   * no queue but `i` and `i - 1`.
   */
  lemma {:induction false} AgeListEffect(cfg: Config, s: RqState, ps: seq<TaskId>, i: int)
    requires FinalConfig(cfg) && Valid(cfg, s) && NoDup(ps)
    requires forall p :: p in ps ==> p in s.tasks && ListPrio(cfg, s.tasks[p].prio) == i
    ensures var r := AgeList(cfg, s, ps);
      && (forall t :: t in s.tasks ==> r.tasks[t] == if t in ps then Aged(cfg, s.tasks[t]) else s.tasks[t])
      && (forall k :: 0 <= k < NBR_DUMMY_PRIO && k != i && k != i - 1 ==> r.queues[k] == s.queues[k])
    decreases |ps|
  {
    if ps != [] {
      var front := ps[..|ps| - 1];
      var p := ps[|ps| - 1];
      assert ps == front + [p];
      assert NoDup(front);
      AgeListEffect(cfg, s, front, i);
      var f := AgeList(cfg, s, front);
      assert p !in front;
      AgeOneTasks(cfg, f, p);
      AgeOneQueues(cfg, f, p, i);
    }
  }

  /**
   * After the aging loop has done queues 1 .. n - 1, exactly the tasks that
   * sat in those queues have been aged, once each, and queues n .. 4 are
   * as they were.
   */
  lemma {:induction false} AgeLevelsEffect(cfg: Config, s: RqState, n: nat)
    requires FinalConfig(cfg) && Valid(cfg, s) && 1 <= n <= NBR_DUMMY_PRIO
    ensures var r := AgeLevels(cfg, s, n);
      && (forall t :: t in s.tasks ==> r.tasks[t] == if InLevels(s, t, n) then Aged(cfg, s.tasks[t]) else s.tasks[t])
      && (forall k :: n <= k < NBR_DUMMY_PRIO ==> r.queues[k] == s.queues[k])
    decreases n
  {
    if n > 1 {
      var m := n - 1;
      AgeLevelsEffect(cfg, s, m);
      AgeLevelsStep(cfg, s, m, n);
      var f := AgeLevels(cfg, s, m);
      var ps := f.queues[m];
      SnapshotUnaged(cfg, s, f, m);
      AgeListEffect(cfg, f, ps, m);
      InLevelsStep(s, m, n);
    }
  }

  /**
   * When the aging loop reaches queue `m`, that queue is as it was at the
   * start: its entities have not been aged yet and are still placed in it.
   */
  lemma SnapshotUnaged(cfg: Config, s: RqState, f: RqState, m: nat)
    requires FinalConfig(cfg) && Valid(cfg, s) && Valid(cfg, f) && 1 <= m < NBR_DUMMY_PRIO
    requires f.tasks.Keys == s.tasks.Keys
    requires forall t :: t in s.tasks ==> f.tasks[t] == if InLevels(s, t, m) then Aged(cfg, s.tasks[t]) else s.tasks[t]
    requires forall k :: m <= k < NBR_DUMMY_PRIO ==> f.queues[k] == s.queues[k]
    ensures NoDup(f.queues[m])
    ensures forall p :: p in f.queues[m] ==>
      p in f.tasks && ListPrio(cfg, f.tasks[p].prio) == m && !InLevels(s, p, m) && f.tasks[p] == s.tasks[p]
  {
    var ps := f.queues[m];
    forall p | p in ps
      ensures p in f.tasks && ListPrio(cfg, f.tasks[p].prio) == m && !InLevels(s, p, m) && f.tasks[p] == s.tasks[p]
    {
      var j :| 0 <= j < |ps| && ps[j] == p;
      assert ListPrio(cfg, s.tasks[s.queues[m][j]].prio) == m;
      NotInOtherQueue(cfg, s, p, m);
    }
  }

  /** Queues 1 .. n - 1 are queues 1 .. n - 2 and queue n - 1. */
  lemma InLevelsStep(s: RqState, m: nat, n: nat)
    requires n == m + 1 && 1 <= m < |s.queues|
    ensures forall t :: InLevels(s, t, n) <==> InLevels(s, t, m) || t in s.queues[m]
  {
    forall t | InLevels(s, t, n)
      ensures InLevels(s, t, m) || t in s.queues[m]
    {
      var i :| 1 <= i < n && i < |s.queues| && t in s.queues[i];
      if i < m {
        assert InLevels(s, t, m);
      }
    }
  }

  /**
   * The whole aging pass: every task queued in queues 1 .. 4 is aged exactly
   * once; every other task, including all of queue 0, keeps its fields.
   * `nr_running` is unchanged, and the reschedule requests grow by the
   * promoted tasks and possibly the current task.
   */
  lemma AgingPassEffect(cfg: Config, s: RqState)
    requires FinalConfig(cfg) && Valid(cfg, s)
    ensures var r := AgeLevels(cfg, s, NBR_DUMMY_PRIO);
      && (forall t :: t in s.tasks ==>
            r.tasks[t] == if InLevels(s, t, NBR_DUMMY_PRIO) then Aged(cfg, s.tasks[t]) else s.tasks[t])
      && r.nrRunning == s.nrRunning
      && RequestsFrom(s, r, PromotedInLevels(cfg, s, NBR_DUMMY_PRIO))
  {
    AgeLevelsEffect(cfg, s, NBR_DUMMY_PRIO);
    AgeLevelsRequests(cfg, s, NBR_DUMMY_PRIO);
  }

  // ----- task_tick_dummy: reschedule requests of the aging pass -----

  /**
   * Whether check-preempt, run after promoting `p`, reschedules the current
   * task: `p`'s raised priority maps to a lower-index queue than the current
   * task's. The current task itself never preempts itself.
   */
  predicate PromotionPreempts(cfg: Config, s: RqState, p: TaskId)
    requires p in s.tasks && s.curr in s.tasks
  {
    p != s.curr && ListPrio(cfg, s.tasks[p].prio - 1) < ListPrio(cfg, s.tasks[s.curr].prio)
  }

  /**
   * A promotion keeps `nr_running` (the dequeue and the enqueue cancel out),
   * requests a reschedule of the promoted task, and of the current task
   * exactly when the promoted task now preempts it.
   */
  lemma PromoteRequests(cfg: Config, s: RqState, p: TaskId)
    requires FinalConfig(cfg) && Valid(cfg, s) && p in s.tasks && s.tasks[p].prio > cfg.upperBound - 5 + 1
    ensures var r := Promote(cfg, s, p);
      && r.nrRunning == s.nrRunning
      && r.resched == s.resched + {p} + (if PromotionPreempts(cfg, s, p) then {s.curr} else {})
  {
    var t1 := s.tasks[p].(aging := 0, prio := s.tasks[p].prio - 1);
    RequeueValid(cfg, s, p, t1);
    RequeueTasks(cfg, s, p, t1);
  }

  /**
   * One pass of the aging loop body keeps `nr_running`; it requests
   * reschedules only when it promotes: of the entity, and of the current
   * task when the entity now preempts it.
   */
  lemma AgeOneRequests(cfg: Config, s: RqState, p: TaskId)
    requires FinalConfig(cfg) && Valid(cfg, s) && p in s.tasks
    ensures var r := AgeOne(cfg, s, p);
      && r.nrRunning == s.nrRunning
      && r.resched == s.resched +
           (if Promoted(cfg, s.tasks[p]) then {p} + (if PromotionPreempts(cfg, s, p) then {s.curr} else {}) else {})
      && RequestsFrom(s, r, if Promoted(cfg, s.tasks[p]) then {p} else {})
  {
    var s1 := AgingTick(s, p);
    AgingTickValid(cfg, s, p);
    if Promoted(cfg, s.tasks[p]) {
      PromoteRequests(cfg, s1, p);
      assert PromotionPreempts(cfg, s1, p) == PromotionPreempts(cfg, s, p);
    }
  }

  /** The tasks of `ts` that one more aging tick promotes. */
  function PromotedIn(cfg: Config, s: RqState, ts: seq<TaskId>): set<TaskId> {
    set t | t in ts && t in s.tasks && Promoted(cfg, s.tasks[t])
  }

  lemma PromotedInAppend(cfg: Config, s: RqState, front: seq<TaskId>, p: TaskId)
    requires p in s.tasks
    ensures PromotedIn(cfg, s, front + [p]) == PromotedIn(cfg, s, front) + (if Promoted(cfg, s.tasks[p]) then {p} else {})
  {
  }

  /**
   * From `s` to `r` the reschedule requests grew by every task in
   * `promoted`, and by nothing else but possibly the current task.
   */
  predicate RequestsFrom(s: RqState, r: RqState, promoted: set<TaskId>) {
    s.resched <= r.resched && promoted <= r.resched && r.resched <= s.resched + promoted + {s.curr}
  }

  /**
   * Walking a snapshot of queue `i` keeps `nr_running` and adds to the
   * reschedule requests exactly the entities it promotes, plus possibly the
   * current task.
   */
  lemma {:induction false} AgeListRequests(cfg: Config, s: RqState, ps: seq<TaskId>, i: int)
    requires FinalConfig(cfg) && Valid(cfg, s) && NoDup(ps)
    requires forall p :: p in ps ==> p in s.tasks && ListPrio(cfg, s.tasks[p].prio) == i
    ensures var r := AgeList(cfg, s, ps);
      && r.nrRunning == s.nrRunning
      && RequestsFrom(s, r, PromotedIn(cfg, s, ps))
    decreases |ps|
  {
    if ps != [] {
      var front := ps[..|ps| - 1];
      var p := ps[|ps| - 1];
      assert ps == front + [p];
      assert NoDup(front);
      AgeListRequests(cfg, s, front, i);
      var f := AgeList(cfg, s, front);
      LastUnaged(cfg, s, front, p, i);
      AgeOneRequests(cfg, f, p);
      var added := if Promoted(cfg, f.tasks[p]) then {p} else {};
      RequestsAppend(s, f, AgeOne(cfg, f, p), PromotedIn(cfg, s, front), added);
      PromotedInAppend(cfg, s, front, p);
    }
  }

  /** An entity after the walked part of a duplicate-free snapshot is not yet aged. */
  lemma LastUnaged(cfg: Config, s: RqState, front: seq<TaskId>, p: TaskId, i: int)
    requires FinalConfig(cfg) && Valid(cfg, s) && NoDup(front + [p])
    requires forall t :: t in front + [p] ==> t in s.tasks && ListPrio(cfg, s.tasks[t].prio) == i
    ensures p !in front && AgeList(cfg, s, front).tasks[p] == s.tasks[p]
  {
    var ps := front + [p];
    assert NoDup(front) by {
      forall a, b | 0 <= a < b < |front| ensures front[a] != front[b] {
        assert ps[a] == front[a] && ps[b] == front[b];
      }
    }
    forall j | 0 <= j < |front| ensures front[j] != p {
      assert ps[j] == front[j] && ps[|front|] == p;
    }
    AgeListEffect(cfg, s, front, i);
  }

  /** Requests gathered in two stretches of a walk add up. */
  lemma RequestsAppend(s: RqState, f: RqState, r: RqState, before: set<TaskId>, added: set<TaskId>)
    requires RequestsFrom(s, f, before) && RequestsFrom(f, r, added) && f.curr == s.curr
    ensures RequestsFrom(s, r, before + added)
  {
  }

  /**
   * After the aging loop has done queues 1 .. n - 1, `nr_running` is
   * unchanged and the reschedule requests grew by exactly the promoted
   * tasks of those queues, plus possibly the current task.
   */
  lemma {:induction false} AgeLevelsRequests(cfg: Config, s: RqState, n: nat)
    requires FinalConfig(cfg) && Valid(cfg, s) && 1 <= n <= NBR_DUMMY_PRIO
    ensures var r := AgeLevels(cfg, s, n);
      && r.nrRunning == s.nrRunning
      && RequestsFrom(s, r, PromotedInLevels(cfg, s, n))
    decreases n
  {
    if n > 1 {
      var m := n - 1;
      AgeLevelsRequests(cfg, s, m);
      AgeLevelsEffect(cfg, s, m);
      AgeLevelsStep(cfg, s, m, n);
      var f := AgeLevels(cfg, s, m);
      var ps := f.queues[m];
      SnapshotUnaged(cfg, s, f, m);
      AgeListRequests(cfg, f, ps, m);
      SnapshotPromoted(cfg, s, f, m);
      RequestsAppend(s, f, AgeLevels(cfg, s, n), PromotedInLevels(cfg, s, m), PromotedIn(cfg, f, ps));
      PromotedInLevelsStep(cfg, s, m, n);
    }
  }

  /** The tasks of queues 1 .. n - 1 that one more aging tick promotes. */
  function PromotedInLevels(cfg: Config, s: RqState, n: nat): set<TaskId> {
    set t | t in s.tasks && InLevels(s, t, n) && Promoted(cfg, s.tasks[t])
  }

  lemma PromotedInLevelsStep(cfg: Config, s: RqState, m: nat, n: nat)
    requires n == m + 1 && 1 <= m < |s.queues|
    ensures PromotedInLevels(cfg, s, n) == PromotedInLevels(cfg, s, m) + PromotedIn(cfg, s, s.queues[m])
  {
    InLevelsStep(s, m, n);
  }

  /** When the loop reaches queue `m`, its entities would be promoted exactly as at the start. */
  lemma SnapshotPromoted(cfg: Config, s: RqState, f: RqState, m: nat)
    requires 1 <= m < NBR_DUMMY_PRIO && |s.queues| == NBR_DUMMY_PRIO && |f.queues| == NBR_DUMMY_PRIO
    requires f.queues[m] == s.queues[m] && f.tasks.Keys == s.tasks.Keys
    requires forall p :: p in f.queues[m] ==> p in f.tasks && f.tasks[p] == s.tasks[p]
    ensures PromotedIn(cfg, f, f.queues[m]) == PromotedIn(cfg, s, s.queues[m])
  {
  }

  /** Tasks in queue 0 never age: the aging pass leaves their fields untouched. */
  lemma TopQueueNeverAges(cfg: Config, s: RqState, t: TaskId)
    requires FinalConfig(cfg) && Valid(cfg, s) && t in s.queues[0]
    ensures AgeLevels(cfg, s, NBR_DUMMY_PRIO).tasks[t] == s.tasks[t]
  {
    AgingPassEffect(cfg, s);
    NotInOtherQueue(cfg, s, t, 0);
  }

  /**
   * Over a whole aging pass a task's priority rises by at most one level
   * and never beyond `DUMMY_PRIO_UPPER_BOUND - 4`; its static priority is
   * untouched.
   */
  lemma AgingBoundsPriority(cfg: Config, s: RqState, t: TaskId)
    requires FinalConfig(cfg) && Valid(cfg, s) && t in s.tasks
    ensures var r := AgeLevels(cfg, s, NBR_DUMMY_PRIO);
      && (r.tasks[t].prio == s.tasks[t].prio || r.tasks[t].prio == s.tasks[t].prio - 1)
      && r.tasks[t].prio >= cfg.upperBound - 4
      && r.tasks[t].staticPrio == s.tasks[t].staticPrio
  {
    AgingPassEffect(cfg, s);
    AgedBounds(cfg, s.tasks[t]);
  }

  /** One aging step raises the priority by at most one level, never beyond `DUMMY_PRIO_UPPER_BOUND - 4`. */
  lemma AgedBounds(cfg: Config, t: Task)
    requires FinalConfig(cfg) && Placeable(cfg, t.prio)
    ensures Aged(cfg, t).prio == t.prio || Aged(cfg, t).prio == t.prio - 1
    ensures Aged(cfg, t).prio >= cfg.upperBound - 4
    ensures Aged(cfg, t).staticPrio == t.staticPrio
  {
  }

  // ----- the operations on the run queue object -----

  /** `dequeue_task_dummy`. */
  method DequeueTask(rq: DummyRq, p: TaskId)
    modifies rq
    ensures rq.State() == Dequeue(old(rq.State()), p)
  {
    rq.UnlinkTask(p);
    rq.nrRunning := rq.nrRunning - 1;
  }

  /** `yield_task_dummy`. */
  method YieldTask(rq: DummyRq)
    requires Valid(rq.cfg, rq.State())
    modifies rq
    ensures rq.State() == Yield(rq.cfg, old(rq.State()))
  {
    var p := rq.curr;
    DequeueTask(rq, p);
    if rq.tasks[p].aging >= rq.cfg.ageThreshold {
      rq.tasks := rq.tasks[p := rq.tasks[p].(aging := 0)];
      rq.tasks := rq.tasks[p := rq.tasks[p].(prio := rq.tasks[p].staticPrio)];
    }
    rq.EnqueueTask(p);
  }

  /** `check_preempt_curr_dummy`. */
  method CheckPreemptCurr(rq: DummyRq, p: TaskId)
    requires p in rq.tasks && rq.curr in rq.tasks
    modifies rq
    ensures rq.State() == CheckPreempt(rq.cfg, old(rq.State()), p)
  {
    if ListPrio(rq.cfg, rq.tasks[p].prio) < ListPrio(rq.cfg, rq.tasks[rq.curr].prio) {
      rq.resched := rq.resched + {rq.curr};
    }
  }

  /** The promotion step of the aging loop of `task_tick_dummy`. */
  method PromoteEntity(rq: DummyRq, p: TaskId)
    requires FinalConfig(rq.cfg) && Valid(rq.cfg, rq.State()) && p in rq.tasks
    requires rq.tasks[p].prio > rq.cfg.upperBound - 5 + 1
    modifies rq
    ensures rq.State() == Promote(rq.cfg, old(rq.State()), p)
  {
    ghost var s := rq.State();
    rq.tasks := rq.tasks[p := rq.tasks[p].(aging := 0)];
    rq.tasks := rq.tasks[p := rq.tasks[p].(prio := rq.tasks[p].prio - 1)];
    assert rq.State() == s.(tasks := s.tasks[p := s.tasks[p].(aging := 0, prio := s.tasks[p].prio - 1)]);
    DequeueTask(rq, p);
    rq.EnqueueTask(p);
    rq.resched := rq.resched + {p};
    CheckPreemptCurr(rq, p);
  }

  /** One step of the aging loop of `task_tick_dummy`. */
  method AgeEntity(rq: DummyRq, p: TaskId)
    requires FinalConfig(rq.cfg) && Valid(rq.cfg, rq.State()) && p in rq.tasks
    modifies rq
    ensures rq.State() == AgeOne(rq.cfg, old(rq.State()), p)
  {
    ghost var s := rq.State();
    AgingTickValid(rq.cfg, s, p);
    rq.tasks := rq.tasks[p := rq.tasks[p].(aging := rq.tasks[p].aging + 1)];
    assert rq.State() == AgingTick(s, p);
    if rq.tasks[p].aging >= rq.cfg.ageThreshold && rq.tasks[p].prio > rq.cfg.upperBound - 5 + 1 {
      PromoteEntity(rq, p);
    }
  }

  /** The time-slice half of `task_tick_dummy`. */
  method TimeSliceStep(rq: DummyRq)
    requires Valid(rq.cfg, rq.State())
    modifies rq
    ensures rq.State() == TimeSliceTick(rq.cfg, old(rq.State()))
  {
    ghost var s := rq.State();
    var c := rq.curr;
    rq.tasks := rq.tasks[c := rq.tasks[c].(timeSlice := rq.tasks[c].timeSlice + 1)];
    if rq.tasks[c].timeSlice >= rq.cfg.timeslice {
      rq.tasks := rq.tasks[c := rq.tasks[c].(prio := rq.tasks[c].staticPrio)];
      rq.tasks := rq.tasks[c := rq.tasks[c].(aging := 0)];
      ghost var t := s.tasks[c];
      assert rq.State() == s.(tasks := s.tasks[c := t.(timeSlice := t.timeSlice + 1, prio := t.staticPrio, aging := 0)]);
      DequeueTask(rq, c);
      rq.EnqueueTask(c);
      rq.resched := rq.resched + {c};
    }
  }

  /** `task_tick_dummy`. */
  method TaskTick(rq: DummyRq)
    requires FinalConfig(rq.cfg) && Valid(rq.cfg, rq.State())
    modifies rq
    ensures rq.State() == Tick(rq.cfg, old(rq.State()))
  {
    TimeSliceStep(rq);
    ghost var s0 := rq.State();
    var i := 1;
    while i < NBR_DUMMY_PRIO
      invariant 1 <= i <= NBR_DUMMY_PRIO
      invariant rq.State() == AgeLevels(rq.cfg, s0, i)
    {
      ghost var level := rq.State();
      var pending := rq.queues[i];
      var k := 0;
      while k < |pending|
        invariant 0 <= k <= |pending|
        invariant pending == level.queues[i]
        invariant rq.State() == AgeList(rq.cfg, level, pending[..k])
      {
        ghost var before, k0 := pending[..k], k;
        AgeEntity(rq, pending[k]);
        k := k + 1;
        AgeListStep(rq.cfg, level, pending, k0, k);
      }
      assert pending[..k] == pending;
      ghost var i0 := i;
      i := i + 1;
      AgeLevelsStep(rq.cfg, s0, i0, i);
    }
  }

  /** One more entity of the snapshot aged. */
  lemma AgeListStep(cfg: Config, s: RqState, ps: seq<TaskId>, k: nat, k1: nat)
    requires FinalConfig(cfg) && Valid(cfg, s) && forall p :: p in ps ==> p in s.tasks
    requires k1 == k + 1 && k1 <= |ps|
    ensures AgeList(cfg, s, ps[..k1]) == AgeOne(cfg, AgeList(cfg, s, ps[..k]), ps[k])
  {
    assert ps[..k1][..k] == ps[..k];
  }

  /** One more queue done by the aging loop. */
  lemma AgeLevelsStep(cfg: Config, s: RqState, n: nat, n1: nat)
    requires FinalConfig(cfg) && Valid(cfg, s) && 1 <= n && n1 == n + 1 && n1 <= NBR_DUMMY_PRIO
    ensures AgeLevels(cfg, s, n1) == AgeList(cfg, AgeLevels(cfg, s, n), AgeLevels(cfg, s, n).queues[n])
  {
  }
}
