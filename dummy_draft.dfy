/**
 * The earlier draft of the dummy scheduling class. It shares the queues,
 * `enqueue_task_dummy` and `pick_next_task_dummy` with the final version;
 * it differs in that `get_list_prio` subtracts from `MAX_DUMMY_PRIO`,
 * dequeue restarts a used-up aging counter, yield and check-preempt only
 * move the current task to the tail of its queue, and a tick handles the
 * time slice only.
 */
module DummyDraft {
  import opened RunQueue

  // ----- dequeue_task_dummy -----

  /**
   * `dequeue_task_dummy`: unlink the task, restart its aging counter when
   * it has reached the threshold, count one running task fewer.
   */
  function Dequeue(cfg: Config, s: RqState, p: TaskId): RqState
    requires p in s.tasks
  {
    var s1 := Unlink(s, p);
    s1.(tasks := s1.tasks[p := AgingRestarted(cfg, s1.tasks[p])], nrRunning := s1.nrRunning - 1)
  }

  /** The task with its aging counter restarted if it has reached the threshold. */
  function AgingRestarted(cfg: Config, t: Task): Task {
    if t.aging >= cfg.ageThreshold then t.(aging := 0) else t
  }

  /**
   * Dequeue leaves the task in no queue and every other task where it was;
   * it resets aging exactly when aging has reached the threshold, changes
   * no other field and no other task, and counts one running task fewer.
   * A valid run queue stays valid.
   */
  lemma DequeueEffect(cfg: Config, s: RqState, p: TaskId)
    requires Valid(cfg, s) && p in s.tasks
    ensures var r := Dequeue(cfg, s, p);
      var t := s.tasks[p];
      && Valid(cfg, r) && !Queued(r, p)
      && |r.queues| == |s.queues|
      && (forall i :: 0 <= i < |s.queues| ==> r.queues[i] == Without(s.queues[i], p))
      && (forall i, x :: 0 <= i < |s.queues| ==> (x in r.queues[i] <==> x in s.queues[i] && x != p))
      && r.tasks.Keys == s.tasks.Keys
      && (t.aging >= cfg.ageThreshold ==> r.tasks[p] == t.(aging := 0))
      && (t.aging < cfg.ageThreshold ==> r.tasks[p] == t)
      && (forall x :: x in s.tasks && x != p ==> r.tasks[x] == s.tasks[x])
      && r.nrRunning == s.nrRunning - 1
      && r.curr == s.curr && r.resched == s.resched
      && (Counted(s) && Queued(s, p) ==> Counted(r))
  {
    DequeueQueues(cfg, s, p);
  }

  /** The queue part of DequeueEffect: the draft dequeue unlinks as `_dequeue_task_dummy` does. */
  lemma DequeueQueues(cfg: Config, s: RqState, p: TaskId)
    requires Valid(cfg, s) && p in s.tasks
    ensures var r := Dequeue(cfg, s, p);
      && Valid(cfg, r) && !Queued(r, p)
      && |r.queues| == |s.queues|
      && (forall i :: 0 <= i < |s.queues| ==> r.queues[i] == Without(s.queues[i], p))
      && (forall i, x :: 0 <= i < |s.queues| ==> (x in r.queues[i] <==> x in s.queues[i] && x != p))
      && (Counted(s) && Queued(s, p) ==> Counted(r))
  {
    ValidAtMostOnce(cfg, s, p);
    UnlinkValid(cfg, s, p);
    var u := Unlink(s, p);
    RetaskValid(cfg, u, p, AgingRestarted(cfg, u.tasks[p]));
    forall i | 0 <= i < |s.queues| {
      WithoutMembers(s.queues[i], p);
    }
  }

  // ----- yield_task_dummy -----

  /**
   * `yield_task_dummy`: dequeue the current task and enqueue it again,
   * with no change of priority.
   */
  function Yield(cfg: Config, s: RqState): (r: RqState)
    requires Valid(cfg, s)
    ensures Valid(cfg, r)
  {
    DequeueEffect(cfg, s, s.curr);
    EnqueueValid(cfg, Dequeue(cfg, s, s.curr), s.curr);
    Enqueue(cfg, Dequeue(cfg, s, s.curr), s.curr)
  }

  /**
   * Yield moves the current task to the tail of the queue of its unchanged
   * priority and leaves every other queue as it was; it restarts a used-up
   * aging counter and a used-up time slice and nothing else, leaves the
   * other tasks alone and keeps the running count.
   */
  lemma YieldEffect(cfg: Config, s: RqState)
    requires Valid(cfg, s)
    ensures var r := Yield(cfg, s);
      var c := s.curr;
      var t := s.tasks[c];
      var i := ListPrio(cfg, t.prio);
      && r.curr == c && r.resched == s.resched
      && r.nrRunning == s.nrRunning
      && (Counted(s) && Queued(s, c) ==> Counted(r))
      && r.queues[i] == Without(s.queues[i], c) + [c]
      && (forall k :: 0 <= k < NBR_DUMMY_PRIO && k != i ==> r.queues[k] == s.queues[k])
      && r.tasks.Keys == s.tasks.Keys
      && r.tasks[c].prio == t.prio && r.tasks[c].staticPrio == t.staticPrio
      && r.tasks[c].aging == (if t.aging >= cfg.ageThreshold then 0 else t.aging)
      && r.tasks[c].timeSlice == (if t.timeSlice >= cfg.timeslice then 0 else t.timeSlice)
      && (forall x :: x in s.tasks && x != c ==> r.tasks[x] == s.tasks[x])
  {
    var c := s.curr;
    var d := Dequeue(cfg, s, c);
    DequeueEffect(cfg, s, c);
    EnqueueValid(cfg, d, c);
    EnqueueEffect(cfg, d, c);
    NotElsewhere(cfg, s, c, ListPrio(cfg, s.tasks[c].prio));
    forall k | 0 <= k < NBR_DUMMY_PRIO
      ensures d.queues[k] == Without(s.queues[k], c)
    {
    }
  }

  // ----- check_preempt_curr_dummy -----

  /**
   * `check_preempt_curr_dummy`: when `p` belongs to a lower-index queue than
   * the current task, dequeue and enqueue the current task and request a
   * reschedule of it.
   */
  function CheckPreempt(cfg: Config, s: RqState, p: TaskId): (r: RqState)
    requires Valid(cfg, s) && p in s.tasks
    ensures Valid(cfg, r)
  {
    if ListPrio(cfg, s.tasks[p].prio) < ListPrio(cfg, s.tasks[s.curr].prio) then
      var y := Yield(cfg, s);
      y.(resched := y.resched + {s.curr})
    else
      s
  }

  /**
   * When `p` maps to a lower-index queue, check-preempt does what a yield
   * does (tail of the same queue, used-up aging and time slice restarted,
   * every other queue and task kept) and also marks the current task, and
   * only it, for rescheduling; otherwise it changes nothing.
   */
  lemma CheckPreemptEffect(cfg: Config, s: RqState, p: TaskId)
    requires Valid(cfg, s) && p in s.tasks
    ensures var r := CheckPreempt(cfg, s, p);
      var c := s.curr;
      var preempts := ListPrio(cfg, s.tasks[p].prio) < ListPrio(cfg, s.tasks[c].prio);
      && (!preempts ==> r == s)
      && (preempts ==>
            && r.resched == s.resched + {c}
            && r.curr == c && r.nrRunning == s.nrRunning
            && r.queues[ListPrio(cfg, s.tasks[c].prio)] ==
                 Without(s.queues[ListPrio(cfg, s.tasks[c].prio)], c) + [c]
            && (forall k :: 0 <= k < NBR_DUMMY_PRIO && k != ListPrio(cfg, s.tasks[c].prio) ==>
                  r.queues[k] == s.queues[k])
            && r.tasks.Keys == s.tasks.Keys
            && r.tasks[c].prio == s.tasks[c].prio && r.tasks[c].staticPrio == s.tasks[c].staticPrio
            && r.tasks[c].aging == (if s.tasks[c].aging >= cfg.ageThreshold then 0 else s.tasks[c].aging)
            && r.tasks[c].timeSlice ==
                 (if s.tasks[c].timeSlice >= cfg.timeslice then 0 else s.tasks[c].timeSlice)
            && (forall x :: x in s.tasks && x != c ==> r.tasks[x] == s.tasks[x]))
  {
    YieldEffect(cfg, s);
  }

  // ----- task_tick_dummy -----

  /**
   * The draft `task_tick_dummy`: count one more tick; when the time slice
   * is used up, dequeue and enqueue the current task and request a
   * reschedule of it.
   */
  function TimeSliceTick(cfg: Config, s: RqState): (r: RqState)
    requires Valid(cfg, s)
    ensures Valid(cfg, r)
  {
    var c := s.curr;
    var t := s.tasks[c].(timeSlice := s.tasks[c].timeSlice + 1);
    var s1 := s.(tasks := s.tasks[c := t]);
    TickedValid(cfg, s);
    if t.timeSlice >= cfg.timeslice then
      var y := Yield(cfg, s1);
      y.(resched := y.resched + {c})
    else
      s1
  }

  /** Counting a tick changes no priority, so the run queue stays valid. */
  lemma TickedValid(cfg: Config, s: RqState)
    requires Valid(cfg, s)
    ensures var c := s.curr;
      Valid(cfg, s.(tasks := s.tasks[c := s.tasks[c].(timeSlice := s.tasks[c].timeSlice + 1)]))
  {
    var c := s.curr;
    var s1 := s.(tasks := s.tasks[c := s.tasks[c].(timeSlice := s.tasks[c].timeSlice + 1)]);
    forall i, j | 0 <= i < |s1.queues| && 0 <= j < |s1.queues[i]|
      ensures s1.tasks[s1.queues[i][j]].prio == s.tasks[s.queues[i][j]].prio
    {
    }
  }

  /**
   * A tick never changes any task's priority. It adds one to the current
   * task's time slice; when that reaches the configured slice, the task
   * gets a fresh slice, the dequeue restarts a used-up aging counter, the
   * task sits at the tail of the queue of its priority and is the one task
   * added to the reschedule requests; other tasks, other queues and the
   * running count are unchanged. Otherwise nothing else changes.
   */
  lemma TimeSliceTickEffect(cfg: Config, s: RqState)
    requires Valid(cfg, s)
    ensures var r := TimeSliceTick(cfg, s);
      var c := s.curr;
      var t := s.tasks[c];
      var i := ListPrio(cfg, t.prio);
      && r.tasks.Keys == s.tasks.Keys
      && (forall x :: x in s.tasks ==> r.tasks[x].prio == s.tasks[x].prio)
      && r.curr == c && r.nrRunning == s.nrRunning
      && (t.timeSlice + 1 < cfg.timeslice ==> r == s.(tasks := s.tasks[c := t.(timeSlice := t.timeSlice + 1)]))
      && (t.timeSlice + 1 >= cfg.timeslice ==>
            && r.tasks[c].timeSlice == 0
            && r.tasks[c].aging == (if t.aging >= cfg.ageThreshold then 0 else t.aging)
            && r.resched == s.resched + {c}
            && (forall x :: x in s.tasks && x != c ==> r.tasks[x] == s.tasks[x])
            && r.queues[i] == Without(s.queues[i], c) + [c]
            && (forall k :: 0 <= k < NBR_DUMMY_PRIO && k != i ==> r.queues[k] == s.queues[k]))
  {
    var c := s.curr;
    var t := s.tasks[c].(timeSlice := s.tasks[c].timeSlice + 1);
    var s1 := s.(tasks := s.tasks[c := t]);
    TickedValid(cfg, s);
    if t.timeSlice >= cfg.timeslice {
      YieldEffect(cfg, s1);
    }
  }

  // ----- the operations on the run queue object -----

  /** `dequeue_task_dummy`. */
  method DequeueTask(rq: DummyRq, p: TaskId)
    requires p in rq.tasks
    modifies rq
    ensures rq.State() == Dequeue(rq.cfg, old(rq.State()), p)
  {
    rq.UnlinkTask(p);
    if rq.tasks[p].aging >= rq.cfg.ageThreshold {
      rq.tasks := rq.tasks[p := rq.tasks[p].(aging := 0)];
    }
    rq.nrRunning := rq.nrRunning - 1;
  }

  /** `yield_task_dummy`. */
  method YieldTask(rq: DummyRq)
    requires Valid(rq.cfg, rq.State())
    modifies rq
    ensures rq.State() == Yield(rq.cfg, old(rq.State()))
  {
    var p := rq.curr;
    DequeueTask(rq, p);
    rq.EnqueueTask(p);
  }

  /** `check_preempt_curr_dummy`. */
  method CheckPreemptCurr(rq: DummyRq, p: TaskId)
    requires Valid(rq.cfg, rq.State()) && p in rq.tasks
    modifies rq
    ensures rq.State() == CheckPreempt(rq.cfg, old(rq.State()), p)
  {
    if ListPrio(rq.cfg, rq.tasks[p].prio) < ListPrio(rq.cfg, rq.tasks[rq.curr].prio) {
      YieldTask(rq);
      rq.resched := rq.resched + {rq.curr};
    }
  }

  /** `task_tick_dummy` (its time-slice part, the only part the draft has). */
  method TaskTick(rq: DummyRq)
    requires Valid(rq.cfg, rq.State())
    modifies rq
    ensures rq.State() == TimeSliceTick(rq.cfg, old(rq.State()))
  {
    ghost var s := rq.State();
    var c := rq.curr;
    rq.tasks := rq.tasks[c := rq.tasks[c].(timeSlice := rq.tasks[c].timeSlice + 1)];
    TickedValid(rq.cfg, s);
    if rq.tasks[c].timeSlice >= rq.cfg.timeslice {
      YieldTask(rq);
      rq.resched := rq.resched + {c};
    }
  }
}
