/** The swappable queue: producers load the current queue and enqueue on it, one worker
    per queue consumes it, Swap changes the current queue, StopWorker cancels a worker,
    and Drain polls a retired queue until it reports empty. Each queue behind it follows
    module LeaseQueue. */
module QueueSwitch {
  import opened Entries
  import LQ = LeaseQueue

  type QueueId = nat

  datatype WorkerStatus = Running | Cancelled | Finished

  datatype Pending = Pending(queue: QueueId, payload: LQ.Payload)

  datatype State = State(
    cur: QueueId,
    queues: map<QueueId, LQ.State>,
    workers: map<QueueId, WorkerStatus>,
    producers: map<nat, Pending>,       // enqueues that have loaded the current queue
    // history
    home: map<Id, QueueId>,             // job -> queue that was current when its enqueue began
    handed: map<QueueId, nat>,          // jobs handed to the queue's worker
    settled: map<QueueId, nat>)         // settle calls of that worker that have returned

  datatype Step =
    | BeginEnqueue(p: nat, payload: LQ.Payload)
    | FinishEnqueue(p: nat, id: Id)
    | FailEnqueue(p: nat)
    | Swap(next: QueueId)
    | StopWorker(q: QueueId)
    | WorkerEnds(q: QueueId)
    | Inside(q: QueueId, step: LQ.Step)

  /** The one consumer of each queue. */
  const WORKER: nat := 0

  predicate InsideAllowed(s: State, q: QueueId, step: LQ.Step) {
    match step
    case Tick(_) => true
    case Enqueue(_, _) => false             // only through FinishEnqueue
    case Grab(w, _, _, _) => w == WORKER && q in s.workers && !s.workers[q].Finished?
    case HandlerReturns(w, _) => w == WORKER
    case Send(w, _) => w == WORKER
    case Arrive(_) => true
    case Crash(_) => false
  }

  predicate Enabled(s: State, step: Step) {
    match step
    case BeginEnqueue(p, _) => p !in s.producers
    case FinishEnqueue(p, id) =>
      p in s.producers && s.producers[p].queue in s.queues && id !in s.home
      && LQ.Enabled(s.queues[s.producers[p].queue], LQ.Enqueue(id, s.producers[p].payload))
    case FailEnqueue(p) => p in s.producers
    case Swap(next) => next in s.queues
    case StopWorker(q) => q in s.workers
    case WorkerEnds(q) =>
      // Run looks at its context only between jobs
      q in s.workers && s.workers[q].Cancelled? && q in s.queues && LQ.WorkerOf(s.queues[q], WORKER).Idle?
    case Inside(q, inner) => q in s.queues && InsideAllowed(s, q, inner) && LQ.Enabled(s.queues[q], inner)
  }

  /** `startLocked`: a new worker unless one is still there, cancelled or not. */
  function Start(workers: map<QueueId, WorkerStatus>, q: QueueId): map<QueueId, WorkerStatus> {
    if q in workers && !workers[q].Finished? then workers else workers[q := Running]
  }

  function Count(m: map<QueueId, nat>, q: QueueId): nat {
    if q in m then m[q] else 0
  }

  function Next(s: State, step: Step): State
    requires Enabled(s, step)
  {
    match step
    case BeginEnqueue(p, payload) => s.(producers := s.producers[p := Pending(s.cur, payload)])
    case FinishEnqueue(p, id) =>
      var q := s.producers[p].queue;
      s.(queues := s.queues[q := LQ.Next(s.queues[q], LQ.Enqueue(id, s.producers[p].payload))],
         producers := s.producers - {p}, home := s.home[id := q])
    case FailEnqueue(p) => s.(producers := s.producers - {p})
    case Swap(next) => s.(cur := next, workers := Start(s.workers, next))
    case StopWorker(q) => if s.workers[q].Running? then s.(workers := s.workers[q := Cancelled]) else s
    case WorkerEnds(q) => s.(workers := s.workers[q := Finished])
    case Inside(q, inner) =>
      var before, after := LQ.WorkerOf(s.queues[q], WORKER), LQ.WorkerOf(LQ.Next(s.queues[q], inner), WORKER);
      s.(queues := s.queues[q := LQ.Next(s.queues[q], inner)],
         handed := if before.Idle? && !after.Idle? then s.handed[q := Count(s.handed, q) + 1] else s.handed,
         settled := if inner.Send? && after.Idle? then s.settled[q := Count(s.settled, q) + 1] else s.settled)
  }

  ghost predicate IsRun(ss: seq<State>, steps: seq<Step>) {
    && |ss| == |steps| + 1
    && (forall q :: q in ss[0].queues ==> LQ.Initial(ss[0].queues[q]))
    && ss[0].cur in ss[0].queues && ss[0].workers == map[ss[0].cur := Running]
    && ss[0].producers == map[] && ss[0].home == map[] && ss[0].handed == map[] && ss[0].settled == map[]
    && forall i :: 0 <= i < |steps| ==> Enabled(ss[i], steps[i]) && ss[i + 1] == Next(ss[i], steps[i])
  }

  // ---- the invariant -----------------------------------------------------------------------

  ghost predicate QueuesKept(s: State) {
    && s.cur in s.queues
    && forall q :: q in s.queues ==> LQ.Inv(s.queues[q])
  }

  /** A job is known to the queue it was put on and to no other. */
  ghost predicate HomesKept(s: State) {
    && (forall id :: id in s.home ==> s.home[id] in s.queues && id in s.queues[s.home[id]].enqueued)
    && (forall q, id :: q in s.queues && id in s.queues[q].enqueued ==> id in s.home && s.home[id] == q)
  }

  /** Jobs handed out and settle calls differ by the job in flight, and a finished worker
      has none. */
  ghost predicate WorkerKept(s: State, q: QueueId)
    requires q in s.queues
  {
    var idle := LQ.WorkerOf(s.queues[q], WORKER).Idle?;
    && Count(s.handed, q) == Count(s.settled, q) + (if idle then 0 else 1)
    && (q in s.workers && s.workers[q].Finished? ==> idle)
    && (!idle ==> q in s.workers)
  }

  ghost predicate WorkersKept(s: State) {
    forall q :: q in s.queues ==> WorkerKept(s, q)
  }

  ghost predicate Inv(s: State) {
    QueuesKept(s) && HomesKept(s) && WorkersKept(s)
  }

  lemma StepKeepsQueues(s: State, step: Step)
    requires QueuesKept(s) && Enabled(s, step)
    ensures QueuesKept(Next(s, step))
  {
    match step {
      case FinishEnqueue(p, id) => OneMoves(s, s.producers[p].queue, LQ.Enqueue(id, s.producers[p].payload));
      case Inside(q, inner) => OneMoves(s, q, inner);
      case _ =>
    }
  }

  /** One of the queues takes a step. */
  lemma OneMoves(s: State, q: QueueId, inner: LQ.Step)
    requires QueuesKept(s) && q in s.queues && LQ.Enabled(s.queues[q], inner)
    ensures QueuesKept(s.(queues := s.queues[q := LQ.Next(s.queues[q], inner)]))
  {
    LQ.StepKeepsInv(s.queues[q], inner);
  }

  lemma StepKeepsHomes(s: State, step: Step)
    requires HomesKept(s) && Enabled(s, step)
    ensures HomesKept(Next(s, step))
  {
    if step.Inside? {
      InsideKeepsEnqueued(s.queues[step.q], step.step);
      SameJobs(s, Next(s, step));
    } else if step.FinishEnqueue? {
      EnqueueKeepsHomes(s, step.p, step.id);
    } else {
      SameJobs(s, Next(s, step));
    }
  }

  lemma SameJobs(s: State, t: State)
    requires HomesKept(s) && t.home == s.home && t.queues.Keys == s.queues.Keys
    requires forall q :: q in s.queues ==> t.queues[q].enqueued == s.queues[q].enqueued
    ensures HomesKept(t)
  {}

  lemma EnqueueKeepsHomes(s: State, p: nat, id: Id)
    requires HomesKept(s) && Enabled(s, FinishEnqueue(p, id))
    ensures HomesKept(Next(s, FinishEnqueue(p, id)))
  {}

  lemma InsideKeepsEnqueued(s: LQ.State, inner: LQ.Step)
    requires LQ.Enabled(s, inner) && !inner.Enqueue?
    ensures LQ.Next(s, inner).enqueued == s.enqueued
  {}

  lemma InsideMovesWorker(s: LQ.State, inner: LQ.Step)
    requires LQ.Enabled(s, inner) && !inner.Enqueue? && !inner.Crash?
    requires inner.Grab? || inner.HandlerReturns? || inner.Send? ==> inner.w == WORKER
    ensures var before, after := LQ.WorkerOf(s, WORKER), LQ.WorkerOf(LQ.Next(s, inner), WORKER);
            && (before.Idle? && !after.Idle? ==> inner.Grab?)
            && (!before.Idle? && after.Idle? ==> inner.Send?)
            && (inner.Send? ==> !before.Idle?)
  {}

  lemma InsideKeepsWorkers(s: State, q: QueueId, inner: LQ.Step)
    requires WorkersKept(s) && Enabled(s, Inside(q, inner))
    ensures WorkersKept(Next(s, Inside(q, inner)))
  {
    var t := Next(s, Inside(q, inner));
    InsideMovesWorker(s.queues[q], inner);
    assert WorkerKept(s, q);
    forall r | r in t.queues ensures WorkerKept(t, r) {
      if r != q { assert WorkerKept(s, r); }
    }
  }

  lemma StepKeepsWorkers(s: State, step: Step)
    requires WorkersKept(s) && Enabled(s, step)
    ensures WorkersKept(Next(s, step))
  {
    match step {
      case Inside(q, inner) => InsideKeepsWorkers(s, q, inner);
      case FinishEnqueue(p, id) => EnqueueKeepsWorkers(s, p, id);
      case _ =>
        forall r | r in Next(s, step).queues ensures WorkerKept(Next(s, step), r) { assert WorkerKept(s, r); }
    }
  }

  lemma EnqueueKeepsWorkers(s: State, p: nat, id: Id)
    requires WorkersKept(s) && Enabled(s, FinishEnqueue(p, id))
    ensures WorkersKept(Next(s, FinishEnqueue(p, id)))
  {
    var t := Next(s, FinishEnqueue(p, id));
    forall r | r in t.queues ensures WorkerKept(t, r) {
      assert WorkerKept(s, r) && LQ.WorkerOf(t.queues[r], WORKER) == LQ.WorkerOf(s.queues[r], WORKER);
    }
  }

  lemma {:induction false} RunKeepsInv(ss: seq<State>, steps: seq<Step>, n: nat)
    requires IsRun(ss, steps) && n < |ss|
    ensures Inv(ss[n])
  {
    if n == 0 {
      forall q | q in ss[0].queues ensures LQ.Inv(ss[0].queues[q]) {
        assert LQ.IsRun([ss[0].queues[q]], []);
        LQ.RunKeepsInv([ss[0].queues[q]], [], 0);
      }
    } else {
      RunKeepsInv(ss, steps, n - 1);
      StepKeepsQueues(ss[n - 1], steps[n - 1]);
      StepKeepsHomes(ss[n - 1], steps[n - 1]);
      StepKeepsWorkers(ss[n - 1], steps[n - 1]);
    }
  }

  // ---- the results -----------------------------------------------------------------------------

  /** A job is in the queue that was current when its enqueue began, or was handled
      successfully and acknowledged there; no other queue ever holds it. */
  lemma JobsStayHome(ss: seq<State>, steps: seq<Step>, n: nat, id: Id)
    requires IsRun(ss, steps) && n < |ss| && id in ss[n].home
    ensures var s, q := ss[n], ss[n].home[id];
            && q in s.queues && id in s.queues[q].enqueued
            && (LQ.InQueue(s.queues[q].jobs, id) <==> id !in s.queues[q].acked)
            && (id in s.queues[q].acked ==> (id, s.queues[q].enqueued[id]) in s.queues[q].succeeded)
            && forall r :: r in s.queues && r != q ==> !LQ.InQueue(s.queues[r].jobs, id) && id !in s.queues[r].enqueued
  {
    RunKeepsInv(ss, steps, n);
    var s, q := ss[n], ss[n].home[id];
    assert LQ.Inv(s.queues[q]);
    forall r | r in s.queues && r != q ensures !LQ.InQueue(s.queues[r].jobs, id) && id !in s.queues[r].enqueued {
      assert LQ.Inv(s.queues[r]);
    }
  }

  /** The enqueue `p` lands or fails. */
  predicate Ends(step: Step, p: nat) {
    (step.FinishEnqueue? && step.p == p) || (step.FailEnqueue? && step.p == p)
  }

  /** Where an enqueue puts its job: the queue that was current when it began, even if
      that queue has been swapped out in between. */
  lemma EnqueueUsesQueueAtBegin(ss: seq<State>, steps: seq<Step>, i: nat, k: nat, p: nat, id: Id)
    requires IsRun(ss, steps) && i < k < |steps|
    requires steps[i].BeginEnqueue? && steps[i].p == p && steps[k] == FinishEnqueue(p, id)
    requires forall m :: i < m < k ==> !Ends(steps[m], p)
    ensures ss[k + 1].home[id] == ss[i].cur
  {
    PendingSurvives(ss, steps, i, k, p);
  }

  lemma {:induction false} PendingSurvives(ss: seq<State>, steps: seq<Step>, i: nat, k: nat, p: nat)
    requires IsRun(ss, steps) && i < k < |ss| && steps[i].BeginEnqueue? && steps[i].p == p
    requires forall m :: i < m < k ==> !Ends(steps[m], p)
    ensures p in ss[k].producers && ss[k].producers[p].queue == ss[i].cur
  {
    if k > i + 1 {
      PendingSurvives(ss, steps, i, k - 1, p);
      StepKeepsPending(ss[k - 1], steps[k - 1], p);
    }
  }

  lemma StepKeepsPending(s: State, step: Step, p: nat)
    requires Enabled(s, step) && p in s.producers
    requires !Ends(step, p)
    ensures p in Next(s, step).producers && Next(s, step).producers[p] == s.producers[p]
  {}

  /** An enqueue lands or fails once: to end again it must have begun anew. */
  lemma {:induction false} EnqueueEndsOnce(ss: seq<State>, steps: seq<Step>, i: nat, k: nat, p: nat)
    requires IsRun(ss, steps) && i < k < |ss| && Ends(steps[i], p)
    requires forall m :: i < m < k ==> !(steps[m].BeginEnqueue? && steps[m].p == p)
    ensures p !in ss[k].producers && (k < |steps| ==> !Ends(steps[k], p))
  {
    if k == i + 1 {
      StepEnds(ss[i], steps[i], p);
    } else {
      EnqueueEndsOnce(ss, steps, i, k - 1, p);
      StepBeginsNoOther(ss[k - 1], steps[k - 1], p);
    }
    if k < |steps| && Ends(steps[k], p) { StepEnds(ss[k], steps[k], p); }
  }

  lemma StepEnds(s: State, step: Step, p: nat)
    requires Enabled(s, step) && Ends(step, p)
    ensures p in s.producers && p !in Next(s, step).producers
  {}

  lemma StepBeginsNoOther(s: State, step: Step, p: nat)
    requires Enabled(s, step) && p !in s.producers && !(step.BeginEnqueue? && step.p == p)
    ensures p !in Next(s, step).producers
  {}

  /** Behind every queue, retired or not, time goes by and whatever was sent may still arrive; the handler of
      its worker may return and be settled even after the worker was stopped. */
  lemma QueuesLiveOn(s: State, q: QueueId, d: nat, r: LQ.Request, success: bool, net: LQ.Net)
    requires q in s.queues
    ensures Enabled(s, Inside(q, LQ.Tick(d)))
    ensures r in s.queues[q].sent ==> Enabled(s, Inside(q, LQ.Arrive(r)))
    ensures LQ.WorkerOf(s.queues[q], WORKER).Busy? ==> Enabled(s, Inside(q, LQ.HandlerReturns(WORKER, success)))
    ensures LQ.WorkerOf(s.queues[q], WORKER).Settling? && LQ.WorkerOf(s.queues[q], WORKER).left > 0 ==>
              Enabled(s, Inside(q, LQ.Send(WORKER, net)))
  {}

  /** A worker ends only when every job it was handed has been through ack or nack. */
  lemma WorkerSettlesBeforeEnding(ss: seq<State>, steps: seq<Step>, n: nat, q: QueueId)
    requires IsRun(ss, steps) && n < |ss| && q in ss[n].queues && q in ss[n].workers && ss[n].workers[q].Finished?
    ensures Count(ss[n].handed, q) == Count(ss[n].settled, q)
    ensures LQ.WorkerOf(ss[n].queues[q], WORKER).Idle?
  {
    RunKeepsInv(ss, steps, n);
    assert WorkerKept(ss[n], q);
  }

  /** The enqueue under way has loaded `q`, and its job is one that `q` does not refuse. */
  predicate LandsOn(e: Pending, q: QueueId) {
    e.queue == q && e.payload.prompt != "" && e.payload.reply != ""
  }

  /** No enqueue that can put a job on `q` is still under way. */
  predicate NoLateEnqueue(s: State, q: QueueId) {
    forall p :: p in s.producers ==> !LandsOn(s.producers[p], q)
  }

  /** Retired, empty and with nobody about to add to it. */
  ghost predicate Retired(s: State, q: QueueId) {
    q in s.queues && s.cur != q && s.queues[q].jobs == [] && NoLateEnqueue(s, q)
  }

  lemma InsideKeepsEmpty(s: LQ.State, inner: LQ.Step)
    requires LQ.Enabled(s, inner) && !inner.Enqueue? && s.jobs == []
    ensures LQ.Next(s, inner).jobs == []
  {}

  lemma StepKeepsRetired(s: State, step: Step, q: QueueId)
    requires Retired(s, q) && Enabled(s, step) && step != Swap(q)
    ensures Retired(Next(s, step), q)
  {
    if step.Inside? && step.q == q {
      InsideKeepsEmpty(s.queues[q], step.step);
    }
  }

  /** Drain's answer 0, read while no enqueue that had loaded the old queue was under way:
      as long as the queue is not made current again, every job ever put on it has been
      handled successfully and acknowledged. */
  lemma {:induction false} DrainedMeansHandled(ss: seq<State>, steps: seq<Step>, n: nat, m: nat, q: QueueId)
    requires IsRun(ss, steps) && n <= m < |ss| && Retired(ss[n], q)
    requires forall i :: n <= i < m ==> steps[i] != Swap(q)
    ensures Retired(ss[m], q)
    ensures forall id :: id in ss[m].queues[q].enqueued ==>
              id in ss[m].queues[q].acked && (id, ss[m].queues[q].enqueued[id]) in ss[m].queues[q].succeeded
  {
    if n < m {
      DrainedMeansHandled(ss, steps, n, m - 1, q);
      StepKeepsRetired(ss[m - 1], steps[m - 1], q);
    }
    RunKeepsInv(ss, steps, m);
    var t := ss[m].queues[q];
    assert LQ.Inv(t);
    forall id | id in t.enqueued ensures id in t.acked && (id, t.enqueued[id]) in t.succeeded {
      assert id in t.enqueued - t.acked ==> LQ.InQueue(t.jobs, id);
    }
  }

  /** That condition is needed: if some enqueue still holds the old queue when Drain reads
      depth 0, then its next step can put a job there that nobody has handled. */
  lemma LateEnqueueEscapesDrain(s: State, q: QueueId, p: nat, id: Id)
    requires Inv(s) && q in s.queues && s.cur != q && s.queues[q].jobs == []
    requires p in s.producers && LandsOn(s.producers[p], q) && id !in s.home
    ensures Enabled(s, FinishEnqueue(p, id))
    ensures var t := Next(s, FinishEnqueue(p, id)).queues[q];
            id in t.enqueued && id !in t.acked && LQ.InQueue(t.jobs, id)
  {
    assert LQ.Inv(s.queues[q]);
    assert id !in s.queues[q].enqueued;
    var t := Next(s, FinishEnqueue(p, id)).queues[q];
    assert t.jobs[0].id == id;
  }

  /** The run goes on, and the queue is not made current again. */
  ghost predicate GoesOn(ss: seq<State>, steps: seq<Step>, tt: seq<State>, more: seq<Step>, q: QueueId) {
    && IsRun(tt, more) && |ss| <= |tt| && |steps| <= |more| && tt[..|ss|] == ss && more[..|steps|] == steps
    && forall i :: |steps| <= i < |more| ==> more[i] != Swap(q)
  }

  /** However the run goes on, every job of `q` is handled. */
  ghost predicate StaysHandled(ss: seq<State>, steps: seq<Step>, q: QueueId) {
    forall tt, more :: GoesOn(ss, steps, tt, more, q) ==> AllHandled(tt[|more|], q)
  }

  /** A retired queue counted as empty is a queue all of whose jobs are handled, however the
      run goes on, exactly when no enqueue that can still put a job there is under way. */
  lemma DrainedForGoodIff(ss: seq<State>, steps: seq<Step>, q: QueueId)
    requires IsRun(ss, steps) && q in ss[|steps|].queues && ss[|steps|].cur != q
    requires Answers(ss[|steps|].queues[q].jobs, 0)
    ensures StaysHandled(ss, steps, q) <==> NoLateEnqueue(ss[|steps|], q)
  {
    var n := |steps|;
    EmptyIfZero(ss[n].queues[q].jobs);
    if NoLateEnqueue(ss[n], q) {
      forall tt, more | GoesOn(ss, steps, tt, more, q) ensures AllHandled(tt[|more|], q) {
        assert tt[n] == tt[..|ss|][n];
        DrainedMeansHandled(tt, more, n, |more|, q);
      }
    } else {
      var p :| p in ss[n].producers && LandsOn(ss[n].producers[p], q);
      var tt, more := LandsLate(ss, steps, q, p);
      assert !AllHandled(tt[|more|], q);
    }
  }

  /** One more step, in which the late enqueue lands. */
  lemma LandsLate(ss: seq<State>, steps: seq<Step>, q: QueueId, p: nat)
      returns (tt: seq<State>, more: seq<Step>)
    requires IsRun(ss, steps) && q in ss[|steps|].queues && ss[|steps|].cur != q
    requires ss[|steps|].queues[q].jobs == [] && p in ss[|steps|].producers && LandsOn(ss[|steps|].producers[p], q)
    ensures GoesOn(ss, steps, tt, more, q) && !AllHandled(tt[|more|], q)
  {
    var s := ss[|steps|];
    var id := FreshId(s.home.Keys);
    RunKeepsInv(ss, steps, |steps|);
    LateEnqueueEscapesDrain(s, q, p, id);
    tt, more := ss + [Next(s, FinishEnqueue(p, id))], steps + [FinishEnqueue(p, id)];
    OneStepMore(ss, steps, FinishEnqueue(p, id));
    assert tt[..|ss|] == ss && more[..|steps|] == steps;
  }

  lemma OneStepMore(ss: seq<State>, steps: seq<Step>, step: Step)
    requires IsRun(ss, steps) && Enabled(ss[|steps|], step)
    ensures IsRun(ss + [Next(ss[|steps|], step)], steps + [step])
  {
    var tt, more := ss + [Next(ss[|steps|], step)], steps + [step];
    forall i | 0 <= i < |more| ensures Enabled(tt[i], more[i]) && tt[i + 1] == Next(tt[i], more[i]) {
      assert i < |steps| ==> tt[i] == ss[i] && tt[i + 1] == ss[i + 1] && more[i] == steps[i];
    }
    assert tt[0] == ss[0];
  }

  /** There is always an id that no job has. */
  lemma FreshId(used: set<Id>) returns (id: Id)
    ensures id !in used
  {
    var n := Longest(used);
    id := seq(n + 1, _ => 'x');
  }

  lemma {:induction false} Longest(used: set<Id>) returns (n: nat)
    ensures forall id :: id in used ==> |id| <= n
  {
    if used == {} {
      n := 0;
    } else {
      var id :| id in used;
      n := Longest(used - {id});
      n := if |id| > n then |id| else n;
    }
  }

  /** Such a run: an enqueue loads queue 0, queue 1 takes over, queue 0 reads as empty, and
      then the enqueue lands. */
  lemma LateEnqueueHappens(id: Id, payload: LQ.Payload) returns (ss: seq<State>, steps: seq<Step>)
    requires payload.prompt != "" && payload.reply != ""
    ensures IsRun(ss, steps) && |steps| == 3 && ss[2].cur == 1 && 0 in ss[2].queues && 0 in ss[3].queues
    ensures ss[2].queues[0].jobs == [] && Answers([], 0) && !NoLateEnqueue(ss[2], 0)
    ensures var t := ss[3].queues[0];
            id in t.enqueued && id !in t.acked && t.calls == [] && LQ.InQueue(t.jobs, id)
  {
    var q := LQ.State(1, [], map[], {}, map[], {}, [], {}, [], {});
    var s0 := State(0, map[0 := q, 1 := q], map[0 := Running], map[], map[], map[], map[]);
    steps := [BeginEnqueue(0, payload), Swap(1), FinishEnqueue(0, id)];
    var s1 := Next(s0, steps[0]);
    var s2 := Next(s1, steps[1]);
    var s3 := Next(s2, steps[2]);
    ss := [s0, s1, s2, s3];
    assert 0 in s2.producers;
    LQ.DepthCountsAll([], []);
    assert Answers([], 0) by { var nows: seq<int> := []; assert |nows| == 0; }
    assert s3.queues[0].jobs[0].id == id;
    forall i | 0 <= i < |steps| ensures Enabled(ss[i], steps[i]) && ss[i + 1] == Next(ss[i], steps[i]) {
      assert i == 0 || i == 1 || i == 2;
    }
  }

  // ---- who consumes the current queue ----------------------------------------------------------------

  ghost predicate Served(s: State, q: QueueId) {
    q in s.workers && s.workers[q].Running?
  }

  /** From the swap that makes `q` current, and as long as nobody stops its worker, `q` has a running
      worker exactly if the swap did not find an old one there, stopped but not yet finished: it
      takes that for a running one. */
  lemma {:induction false} CurrentIsServedIff(ss: seq<State>, steps: seq<Step>, i: nat, n: nat, q: QueueId)
    requires IsRun(ss, steps) && i < n < |ss| && steps[i] == Swap(q)
    requires forall k :: i < k < n ==> steps[k] != StopWorker(q) && !steps[k].Swap?
    ensures ss[n].cur == q && q in ss[n].workers
    ensures Served(ss[n], q) <==> !(q in ss[i].workers && ss[i].workers[q].Cancelled?)
  {
    if n > i + 1 { CurrentIsServedIff(ss, steps, i, n - 1, q); }
  }

  /** Once finished, a worker is replaced only by a swap to its queue; until then nothing leases a
      job from there, whatever gets enqueued. */
  lemma {:induction false} UnservedForGood(ss: seq<State>, steps: seq<Step>, n: nat, m: nat, q: QueueId)
    requires IsRun(ss, steps) && n <= m < |ss| && q in ss[n].workers && ss[n].workers[q].Finished?
    requires forall k :: n <= k < m ==> steps[k] != Swap(q)
    ensures q in ss[m].workers && ss[m].workers[q].Finished?
    ensures forall step: LQ.Step :: step.Grab? ==> !Enabled(ss[m], Inside(q, step))
  {
    if n < m { UnservedForGood(ss, steps, n, m - 1, q); }
  }

  /** Such a run: queue 0 is swapped out and its worker stopped; it is made current again before that
      worker has finished; then the worker finishes, and the current queue has none. */
  lemma UnservedHappens() returns (ss: seq<State>, steps: seq<Step>)
    ensures IsRun(ss, steps) && |steps| == 4
    ensures steps[2] == Swap(0) && ss[4].cur == 0 && 0 in ss[4].workers && ss[4].workers[0].Finished?
  {
    var q := LQ.State(1, [], map[], {}, map[], {}, [], {}, [], {});
    var s0 := State(0, map[0 := q, 1 := q], map[0 := Running], map[], map[], map[], map[]);
    steps := [Swap(1), StopWorker(0), Swap(0), WorkerEnds(0)];
    var s1 := Next(s0, steps[0]);
    var s2 := Next(s1, steps[1]);
    var s3 := Next(s2, steps[2]);
    var s4 := Next(s3, steps[3]);
    ss := [s0, s1, s2, s3, s4];
    forall i | 0 <= i < |steps| ensures Enabled(ss[i], steps[i]) && ss[i + 1] == Next(ss[i], steps[i]) {
      assert i == 0 || i == 1 || i == 2 || i == 3;
    }
  }

  // ---- draining ------------------------------------------------------------------------------------

  /** The answer at `i` is `n`, and none came after it. */
  ghost predicate LastAt(depths: seq<Option<nat>>, n: int, i: nat) {
    i < |depths| && depths[i].Some? && depths[i].value == n && forall j :: i < j < |depths| ==> depths[j].None?
  }

  /** `n` is the last answer among `depths`, or -1 if there is none. */
  ghost predicate IsLast(depths: seq<Option<nat>>, n: int) {
    (n == -1 && forall i :: 0 <= i < |depths| ==> depths[i].None?) || exists i: nat :: LastAt(depths, n, i)
  }

  lemma {:induction false} LastAnswerIsLast(depths: seq<Option<nat>>)
    ensures IsLast(depths, LastAnswer(depths))
  {
    if depths != [] {
      var k := |depths| - 1;
      if depths[k].Some? {
        assert LastAt(depths, LastAnswer(depths), k);
      } else {
        LastAnswerIsLast(depths[..k]);
        if i: nat :| LastAt(depths[..k], LastAnswer(depths), i) { assert LastAt(depths, LastAnswer(depths), i); }
      }
    }
  }

  /** The last depth that could be read, or -1. */
  function LastAnswer(depths: seq<Option<nat>>): int {
    if depths == [] then -1
    else match depths[|depths| - 1]
         case Some(n) => n
         case None => LastAnswer(depths[..|depths| - 1])
  }

  /** Drain's polling loop. `depths[i]` is what the i-th Depth call would answer (None: it
      fails); the window ends after the last of them. It stops at the first 0. */
  method DrainLoop(canCount: bool, depths: seq<Option<nat>>) returns (remaining: int, polls: nat)
    requires |depths| > 0
    ensures 1 <= polls <= |depths|
    ensures !canCount ==> remaining == -1
    ensures canCount ==> remaining == LastAnswer(depths[..polls]) && Some(0) !in depths[..polls - 1]
    ensures canCount && remaining == 0 ==> depths[polls - 1] == Some(0)
    ensures canCount && remaining != 0 ==> polls == |depths| && Some(0) !in depths
    // the last count that could be read, or -1
    ensures canCount ==> IsLast(depths[..polls], remaining)
  {
    remaining, polls := -1, 0;
    while polls < |depths|
      invariant 0 <= polls <= |depths| && remaining >= -1 && remaining != 0
      invariant !canCount ==> remaining == -1
      invariant Some(0) !in depths[..polls] || !canCount
      invariant canCount ==> remaining == LastAnswer(depths[..polls])
    {
      assert depths[..polls + 1][..polls] == depths[..polls];
      polls := polls + 1;
      if canCount {
        match depths[polls - 1] {
          case Some(n) =>
            remaining := n;
            if n == 0 {
              LastAnswerIsLast(depths[..polls]);
              return;
            }
          case None =>
        }
      }
    }
    assert depths[..|depths|] == depths;
    LastAnswerIsLast(depths);
  }

  /** `depths[i]` is an answer of queue `q` in the state `ss[polls[i]]`, or no answer. */
  ghost predicate Polled(ss: seq<State>, q: QueueId, polls: seq<nat>, depths: seq<Option<nat>>) {
    && |polls| == |depths|
    && forall i :: 0 <= i < |polls| ==>
         && polls[i] < |ss| && q in ss[polls[i]].queues
         && (depths[i].Some? ==> Answers(ss[polls[i]].queues[q].jobs, depths[i].value))
  }

  ghost predicate Answers(jobs: seq<LQ.Job>, depth: nat) {
    exists nows: seq<int> :: |nows| == |jobs| && depth == LQ.Depth(jobs, nows)
  }

  /** From state `n` to state `m` the queue stays out of use, and at `n` no enqueue that had
      loaded it was under way. */
  ghost predicate LeftAlone(ss: seq<State>, steps: seq<Step>, q: QueueId, n: nat, m: nat) {
    && n <= m < |ss| == |steps| + 1 && ss[n].cur != q && NoLateEnqueue(ss[n], q)
    && forall i :: n <= i < m ==> steps[i] != Swap(q)
  }

  /** Every job ever put on the queue was handled successfully and acknowledged. */
  ghost predicate AllHandled(s: State, q: QueueId) {
    && q in s.queues
    && forall id :: id in s.queues[q].enqueued ==>
         id in s.queues[q].acked && (id, s.queues[q].enqueued[id]) in s.queues[q].succeeded
  }

  /** If the last poll of `q` answered 0, and no enqueue that had loaded the queue was under way
      then, every job ever put on it has been handled, from that poll on and until the queue
      is made current again. */
  lemma DrainZeroMeansHandled(ss: seq<State>, steps: seq<Step>, q: QueueId,
                              polls: seq<nat>, depths: seq<Option<nat>>, m: nat)
    requires IsRun(ss, steps) && |depths| > 0 && Polled(ss, q, polls, depths)
    requires depths[|depths| - 1] == Some(0) && LeftAlone(ss, steps, q, polls[|depths| - 1], m)
    ensures Retired(ss[m], q) && AllHandled(ss[m], q)
  {
    var n := polls[|depths| - 1];
    EmptyIfZero(ss[n].queues[q].jobs);
    DrainedMeansHandled(ss, steps, n, m, q);
  }

  /** The loop over polls of a run, and what its answer 0 is worth. */
  method DrainRetired(ghost ss: seq<State>, ghost steps: seq<Step>, q: QueueId,
                      ghost polls: seq<nat>, depths: seq<Option<nat>>)
    returns (remaining: int, made: nat)
    requires IsRun(ss, steps) && |depths| > 0 && Polled(ss, q, polls, depths)
    ensures 1 <= made <= |depths| && IsLast(depths[..made], remaining)
    ensures remaining != 0 ==> made == |depths| && Some(0) !in depths
    ensures remaining == 0 ==> ss[polls[made - 1]].queues[q].jobs == []
    ensures remaining == 0 ==> forall m: nat :: LeftAlone(ss, steps, q, polls[made - 1], m) ==> AllHandled(ss[m], q)
  {
    remaining, made := DrainLoop(true, depths);
    if remaining == 0 {
      EmptyIfZero(ss[polls[made - 1]].queues[q].jobs);
      forall m: nat | LeftAlone(ss, steps, q, polls[made - 1], m) ensures AllHandled(ss[m], q) {
        DrainZeroMeansHandled(ss, steps, q, polls[..made], depths[..made], m);
      }
    }
  }

  lemma EmptyIfZero(jobs: seq<LQ.Job>)
    requires Answers(jobs, 0)
    ensures jobs == []
  {
    var nows: seq<int> :| |nows| == |jobs| && 0 == LQ.Depth(jobs, nows);
    LQ.DepthCountsAll(jobs, nows);
  }
}
