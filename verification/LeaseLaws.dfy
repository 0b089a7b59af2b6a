/** What the steps of the lease queue's protocol come to: what a settle request does to its job, how
    a worker takes the replies to it, and that every job in the queue can be handed out again,
    whatever happened to it before. */
module LeaseLaws {
  import opened Entries
  import opened LeaseQueue

  /** `r` names the lease that its job has now. */
  ghost predicate Current(s: State, r: Request) {
    r.token != "" && exists j :: j in s.jobs && j.id == r.id && j.token == r.token
  }

  /** The job as a nack leaves it: with no lease, to be leased at once. */
  function Released(j: Job): Job {
    Job(j.id, j.payload, "", j.attempt, 0)
  }

  /** A request with a lease that is over changes nothing. With the current one an ack takes its job,
      and no other, out of the queue, and a nack makes it, and no other, visible at once. */
  lemma ServeMeans(s: State, r: Request)
    requires DistinctJobs(s.jobs)
    ensures var t := Serve(s, r);
            && (!Current(s, r) ==> t == s)
            && (Current(s, r) && r.ack ==>
                  && t == s.(jobs := t.jobs, acked := s.acked + {r.id})
                  && forall j :: j in t.jobs <==> j in s.jobs && j.id != r.id)
            && (Current(s, r) && !r.ack ==>
                  && t == s.(jobs := t.jobs, nacked := s.nacked + {r.token})
                  && |t.jobs| == |s.jobs|
                  && forall i :: 0 <= i < |s.jobs| ==>
                       t.jobs[i] == if s.jobs[i].id == r.id then Released(s.jobs[i]) else s.jobs[i])
  {
    SettleMeans(s.jobs, r.id, r.token, r.ack);
  }

  /** One attempt to settle: unless it gets lost, its request is carried out, and it may be carried out
      again later. The worker is done if it reads that it was settled or that its lease is over, and
      after its last attempt; otherwise it tries again. */
  lemma AttemptMeans(s: State, w: nat, net: Net)
    requires DistinctJobs(s.jobs) && Enabled(s, Send(w, net))
    ensures var k, t := WorkerOf(s, w), Next(s, Send(w, net));
            var r := Request(k.ack, k.id, k.token);
            var code := Settle(s.jobs, k.id, k.token, k.ack).1;
            && r in t.sent && s.sent <= t.sent
            && t.jobs == (if net.RequestLost? then s else Serve(s, r)).jobs
            && t.acked == (if net.RequestLost? then s else Serve(s, r)).acked
            && WorkerOf(t, w) == (if (net.Delivered? && (code == 200 || code == 409)) || k.left == 1 then Idle
                                  else Settling(k.ack, k.id, k.token, k.left - 1))
            && forall v :: v != w ==> WorkerOf(t, v) == WorkerOf(s, v)
  {}

  /** A handler that returns settles its own lease: an ack if it succeeded, a nack if it did not. */
  lemma ReturnMeans(s: State, w: nat, success: bool)
    requires Enabled(s, HandlerReturns(w, success))
    ensures var k, t := WorkerOf(s, w), Next(s, HandlerReturns(w, success));
            && WorkerOf(t, w) == Settling(success, k.id, k.token, 3)
            && t.jobs == s.jobs && (success ==> (k.id, k.payload) in t.succeeded)
            && forall net: Net :: Enabled(t, Send(w, net))
  {}

  // ---- at most three attempts ---------------------------------------------------------------------

  ghost predicate MaySend(k: Worker) {
    k.Settling? ==> 1 <= k.left <= 3
  }

  /** In every run a worker that settles has one to three attempts left and can make the next one. */
  lemma {:induction false} RunMaySend(ss: seq<State>, steps: seq<Step>, n: nat, w: nat)
    requires IsRun(ss, steps) && n < |ss|
    ensures MaySend(WorkerOf(ss[n], w))
    ensures WorkerOf(ss[n], w).Settling? ==> forall net: Net :: Enabled(ss[n], Send(w, net))
  {
    if n > 0 {
      RunMaySend(ss, steps, n - 1, w);
      StepMaySend(ss[n - 1], steps[n - 1], w);
    }
  }

  lemma StepMaySend(s: State, step: Step, w: nat)
    requires Enabled(s, step) && MaySend(WorkerOf(s, w))
    ensures MaySend(WorkerOf(Next(s, step), w))
  {}

  /** How many attempts worker `w` has made from step `i` on, up to step `n`. */
  function Attempts(steps: seq<Step>, i: nat, n: nat, w: nat): nat
    requires i <= n <= |steps|
  {
    if n == i then 0
    else Attempts(steps, i, n - 1, w) + if steps[n - 1].Send? && steps[n - 1].w == w then 1 else 0
  }

  /** From the return of its handler on, while it is still settling, a worker has made as many attempts as
      it has fewer than three left: it never makes a fourth. */
  lemma {:induction false} AtMostThreeAttempts(ss: seq<State>, steps: seq<Step>, i: nat, n: nat, w: nat, success: bool)
    requires IsRun(ss, steps) && i < n < |ss| && steps[i] == HandlerReturns(w, success)
    requires forall m :: i < m <= n ==> WorkerOf(ss[m], w).Settling?
    ensures Attempts(steps, i + 1, n, w) + WorkerOf(ss[n], w).left == 3
    ensures Attempts(steps, i + 1, n, w) <= 2
  {
    RunMaySend(ss, steps, n, w);
    if n > i + 1 {
      AtMostThreeAttempts(ss, steps, i, n - 1, w, success);
      OneAttempt(ss[n - 1], steps[n - 1], w);
    } else {
      ReturnMeans(ss[i], w, success);
    }
  }

  lemma OneAttempt(s: State, step: Step, w: nat)
    requires Enabled(s, step) && WorkerOf(s, w).Settling? && WorkerOf(Next(s, step), w).Settling?
    ensures WorkerOf(s, w).left ==
              WorkerOf(Next(s, step), w).left + if step.Send? && step.w == w then 1 else 0
  {}

  // ---- every job can be handed out ----------------------------------------------------------------

  ghost predicate GoesOn(ss: seq<State>, steps: seq<Step>, tt: seq<State>, more: seq<Step>) {
    && IsRun(tt, more) && |ss| <= |tt| && |steps| <= |more| && tt[..|ss|] == ss && more[..|steps|] == steps
  }

  lemma OneStepMore(ss: seq<State>, steps: seq<Step>, tt: seq<State>, more: seq<Step>, step: Step)
    returns (uu: seq<State>, evenMore: seq<Step>)
    requires GoesOn(ss, steps, tt, more) && Enabled(tt[|more|], step)
    ensures GoesOn(ss, steps, uu, evenMore) && |evenMore| == |more| + 1
    ensures uu[|evenMore|] == Next(tt[|more|], step)
  {
    uu, evenMore := tt + [Next(tt[|more|], step)], more + [step];
    forall i | 0 <= i < |evenMore| ensures Enabled(uu[i], evenMore[i]) && uu[i + 1] == Next(uu[i], evenMore[i]) {
      assert i < |more| ==> uu[i] == tt[i] && uu[i + 1] == tt[i + 1] && evenMore[i] == more[i];
    }
    assert uu[0] == tt[0] && uu[..|ss|] == tt[..|ss|] && evenMore[..|steps|] == more[..|steps|];
  }

  /** Worker `w` is idle; the first `m` jobs of `jobs` are leased for the moment and the others free. */
  ghost predicate Passed(s: State, jobs: seq<Job>, m: nat, w: nat) {
    && WorkerOf(s, w).Idle? && |s.jobs| == |jobs|
    && (forall i :: 0 <= i < |jobs| ==> s.jobs[i].id == jobs[i].id && s.jobs[i].payload == jobs[i].payload)
    && (forall i :: 0 <= i < m && i < |jobs| ==> s.now < s.jobs[i].visible)
    && forall i :: m <= i < |jobs| ==> s.jobs[i].visible <= s.now
  }

  /** From every state of every run, and with every worker, the protocol can go on so that a given job
      of the queue is handed to that worker: it comes back, if need be from a crash, the leases run
      out, and the jobs before the one wanted are leased by replies that get lost. */
  lemma EveryJobCanBeHandled(ss: seq<State>, steps: seq<Step>, k: nat, w: nat, vis: nat)
    returns (tt: seq<State>, more: seq<Step>, token: string)
    requires IsRun(ss, steps) && k < |ss[|steps|].jobs| && 1 <= vis <= 3600
    ensures GoesOn(ss, steps, tt, more)
    ensures var j := ss[|steps|].jobs[k]; WorkerOf(tt[|more|], w) == Busy(j.id, j.payload, token)
    ensures tt[|more|].calls == ss[|steps|].calls + [ss[|steps|].jobs[k].id]
  {
    var s := ss[|steps|];
    assert ss[..|ss|] == ss && steps[..|steps|] == steps;
    tt, more := OneStepMore(ss, steps, ss, steps, Crash(w));
    var d := LastDeadline(s.jobs, s.now);
    tt, more := OneStepMore(ss, steps, tt, more, Tick(d));
    var m := 0;
    while m < k
      invariant m <= k && GoesOn(ss, steps, tt, more) && Passed(tt[|more|], s.jobs, m, w)
      invariant tt[|more|].calls == s.calls
    {
      var t := FreshToken(tt[|more|].grants);
      LostLease(tt[|more|], s.jobs, m, w, vis, t);
      tt, more := OneStepMore(ss, steps, tt, more, Grab(w, vis, t, false));
      m := m + 1;
    }
    token := FreshToken(tt[|more|].grants);
    ArrivingLease(tt[|more|], s.jobs, k, w, vis, token);
    tt, more := OneStepMore(ss, steps, tt, more, Grab(w, vis, token, true));
  }

  lemma LostLease(s: State, jobs: seq<Job>, m: nat, w: nat, vis: nat, token: string)
    requires Passed(s, jobs, m, w) && m < |jobs| && 1 <= vis <= 3600
    requires token != "" && forall g :: g in s.grants ==> g.token != token
    ensures Enabled(s, Grab(w, vis, token, false))
    ensures var t := Next(s, Grab(w, vis, token, false)); Passed(t, jobs, m + 1, w) && t.calls == s.calls
  {
    LeaseSkips(s.jobs, m, s.now, vis, token);
  }

  lemma ArrivingLease(s: State, jobs: seq<Job>, k: nat, w: nat, vis: nat, token: string)
    requires Passed(s, jobs, k, w) && k < |jobs| && 1 <= vis <= 3600
    requires token != "" && forall g :: g in s.grants ==> g.token != token
    ensures Enabled(s, Grab(w, vis, token, true))
    ensures var t := Next(s, Grab(w, vis, token, true));
            WorkerOf(t, w) == Busy(jobs[k].id, jobs[k].payload, token) && t.calls == s.calls + [jobs[k].id]
  {
    LeaseSkips(s.jobs, k, s.now, vis, token);
  }

  /** Long enough for every lease to run out. */
  lemma {:induction false} LastDeadline(jobs: seq<Job>, now: int) returns (d: nat)
    ensures forall i :: 0 <= i < |jobs| ==> jobs[i].visible <= now + d
  {
    if jobs == [] {
      d := 0;
    } else {
      d := LastDeadline(jobs[1..], now);
      if jobs[0].visible > now + d { d := jobs[0].visible - now; }
      assert forall i :: 0 < i < |jobs| ==> jobs[i] == jobs[1..][i - 1];
    }
  }

  /** There is always a token that no lease has had. */
  lemma FreshToken(grants: seq<Grant>) returns (token: string)
    ensures token != "" && forall g :: g in grants ==> g.token != token
  {
    var n := LongestToken(grants);
    token := seq(n + 1, _ => 't');
  }

  lemma {:induction false} LongestToken(grants: seq<Grant>) returns (n: nat)
    ensures forall g :: g in grants ==> |g.token| <= n
  {
    if grants == [] {
      n := 0;
    } else {
      n := LongestToken(grants[1..]);
      assert grants == [grants[0]] + grants[1..];
      if |grants[0].token| > n { n := |grants[0].token|; }
    }
  }
}
