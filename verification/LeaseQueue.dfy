/** The lease queue: a server that hides a leased job until its deadline, and workers
    that acknowledge a job only after its handler succeeded. Replies and requests may be
    lost, handlers may fail, workers may die, and the clock may run past any deadline. */
module LeaseQueue {
  import opened Entries

  datatype Payload = Payload(prompt: string, reply: string, vector: Vector)

  /** `visible` is the time from which the job may be leased; 0 is Go's zero time. */
  datatype Job = Job(id: Id, payload: Payload, token: string, attempt: nat, visible: int)

  datatype Net = RequestLost | ReplyLost | Delivered

  const OK := 200
  const NOT_FOUND := 404
  const CONFLICT := 409

  // ---- the server's operations as functions on the job list ------------------------------

  /** The oldest job that is not currently leased gets a new token and deadline. */
  function Lease(jobs: seq<Job>, now: int, vis: nat, token: string): (seq<Job>, Option<Job>) {
    if jobs == [] then ([], None)
    else if now < jobs[0].visible then
      var (rest, leased) := Lease(jobs[1..], now, vis, token);
      ([jobs[0]] + rest, leased)
    else
      var j := jobs[0].(attempt := jobs[0].attempt + 1, token := token, visible := now + vis);
      ([j] + jobs[1..], Some(j))
  }

  /** Ack (`remove`) or nack the job `id` if `token` is its current lease. */
  function Settle(jobs: seq<Job>, id: Id, token: string, remove: bool): (seq<Job>, int) {
    if jobs == [] then (jobs, NOT_FOUND)
    else if jobs[0].id != id then
      var (rest, code) := Settle(jobs[1..], id, token, remove);
      ([jobs[0]] + rest, code)
    else if jobs[0].token == "" || token != jobs[0].token then (jobs, CONFLICT)
    else if remove then (jobs[1..], OK)
    else ([jobs[0].(token := "", visible := 0)] + jobs[1..], OK)
  }

  /** Jobs whose lease is running when the clock shows `nows[i]` for the i-th. */
  function Leased(jobs: seq<Job>, nows: seq<int>): nat
    requires |nows| == |jobs|
  {
    if jobs == [] then 0
    else
      var n := |jobs| - 1;
      Leased(jobs[..n], nows[..n]) + if nows[n] < jobs[n].visible then 1 else 0
  }

  function Pending(jobs: seq<Job>, nows: seq<int>): nat
    requires |nows| == |jobs|
  {
    if jobs == [] then 0
    else
      var n := |jobs| - 1;
      Pending(jobs[..n], nows[..n]) + if nows[n] < jobs[n].visible then 0 else 1
  }

  /** What the client makes of the stats: everything that is still stored. */
  function Depth(jobs: seq<Job>, nows: seq<int>): nat
    requires |nows| == |jobs|
  {
    Pending(jobs, nows) + Leased(jobs, nows)
  }

  lemma {:induction false} LeasedCounts(jobs: seq<Job>, nows: seq<int>)
    requires |nows| == |jobs|
    ensures Leased(jobs, nows) == |set i: nat | i < |jobs| && nows[i] < jobs[i].visible|
  {
    if jobs != [] {
      var n := |jobs| - 1;
      LeasedCounts(jobs[..n], nows[..n]);
      var before := set i: nat | i < n && nows[..n][i] < jobs[..n][i].visible;
      var after := set i: nat | i < |jobs| && nows[i] < jobs[i].visible;
      OneMore(before, after, n, nows[n] < jobs[n].visible);
    }
  }

  lemma {:induction false} PendingCounts(jobs: seq<Job>, nows: seq<int>)
    requires |nows| == |jobs|
    ensures Pending(jobs, nows) == |set i: nat | i < |jobs| && jobs[i].visible <= nows[i]|
  {
    if jobs != [] {
      var n := |jobs| - 1;
      PendingCounts(jobs[..n], nows[..n]);
      var before := set i: nat | i < n && jobs[..n][i].visible <= nows[..n][i];
      var after := set i: nat | i < |jobs| && jobs[i].visible <= nows[i];
      OneMore(before, after, n, jobs[n].visible <= nows[n]);
    }
  }

  lemma OneMore(before: set<nat>, after: set<nat>, n: nat, more: bool)
    requires n !in before && forall i :: i in after <==> i in before || (i == n && more)
    ensures |after| == |before| + if more then 1 else 0
  {
    assert after == before + if more then {n} else {};
  }

  /** Whatever the clock shows while the jobs are counted. */
  lemma {:induction false} DepthCountsAll(jobs: seq<Job>, nows: seq<int>)
    requires |nows| == |jobs|
    ensures Depth(jobs, nows) == |jobs|
  {
    if jobs != [] { DepthCountsAll(jobs[..|jobs| - 1], nows[..|jobs| - 1]); }
  }

  class QueueServer {
    var jobs: seq<Job>

    constructor ()
      ensures jobs == []
    {
      jobs := [];
    }

    method Enqueue(payload: Payload, id: Id) returns (status: int)
      modifies this
      ensures if payload.prompt == "" || payload.reply == "" then status == 400 && jobs == old(jobs)
              else status == 201 && jobs == old(jobs) + [Job(id, payload, "", 0, 0)]
    {
      if payload.prompt == "" || payload.reply == "" {
        return 400;
      }
      jobs := jobs + [Job(id, payload, "", 0, 0)];
      return 201;
    }

    method LeaseJob(now: int, vis: nat, newToken: string) returns (leased: Option<Job>)
      modifies this
      ensures (jobs, leased) == Lease(old(jobs), now, vis, newToken)
      ensures leased.None? <==> forall j :: j in old(jobs) ==> now < j.visible
      ensures leased.None? ==> jobs == old(jobs)
      ensures leased.Some? ==> exists k :: LeasedAt(old(jobs), jobs, k, now, vis, newToken, leased.value)
    {
      var i := 0;
      while i < |jobs|
        invariant 0 <= i <= |jobs| && jobs == old(jobs)
        invariant forall k :: 0 <= k < i ==> now < jobs[k].visible
      {
        var j := jobs[i];
        if now < j.visible {
          i := i + 1;
          continue;
        }
        LeaseSkips(jobs, i, now, vis, newToken);
        assert jobs[i] in jobs;
        j := j.(attempt := j.attempt + 1, token := newToken, visible := now + vis);
        jobs := jobs[i := j];
        assert LeasedAt(old(jobs), jobs, i, now, vis, newToken, j);
        return Some(j);
      }
      LeaseSkips(jobs, i, now, vis, newToken);
      return None;
    }

    method SettleJob(id: Id, token: string, remove: bool) returns (status: int)
      modifies this
      ensures (jobs, status) == Settle(old(jobs), id, token, remove)
    {
      var i := 0;
      while i < |jobs|
        invariant 0 <= i <= |jobs| && jobs == old(jobs)
        invariant forall k :: 0 <= k < i ==> jobs[k].id != id
      {
        var j := jobs[i];
        if j.id != id {
          i := i + 1;
          continue;
        }
        SettleSkips(jobs, i, id, token, remove);
        if j.token == "" || token != j.token {
          return CONFLICT;
        }
        if remove {
          jobs := jobs[..i] + jobs[i + 1..];
        } else {
          jobs := jobs[i := j.(token := "", visible := 0)];
        }
        return OK;
      }
      SettleSkips(jobs, i, id, token, remove);
      return NOT_FOUND;
    }

    /** The stats handler reads the clock anew for every job. */
    method Stats(nows: seq<int>) returns (pending: nat, leased: nat)
      requires |nows| == |jobs|
      ensures leased == Leased(jobs, nows) && pending + leased == Depth(jobs, nows)
      ensures leased == |set i: nat | i < |jobs| && nows[i] < jobs[i].visible|
      ensures pending == |set i: nat | i < |jobs| && jobs[i].visible <= nows[i]|
    {
      pending, leased := 0, 0;
      for i := 0 to |jobs|
        invariant leased == Leased(jobs[..i], nows[..i]) && pending == Pending(jobs[..i], nows[..i])
      {
        assert jobs[..i + 1][..i] == jobs[..i] && nows[..i + 1][..i] == nows[..i];
        if nows[i] < jobs[i].visible {
          leased := leased + 1;
        } else {
          pending := pending + 1;
        }
      }
      assert jobs[..|jobs|] == jobs && nows[..|jobs|] == nows;
      LeasedCounts(jobs, nows);
      PendingCounts(jobs, nows);
    }

    /** The client's settle loop: up to three attempts, stopping at success or at a lost
        lease. Whatever the network does to each attempt, the server sees either nothing
        or the effect of a single settle; success is reported exactly when the reply to the
        first request that arrives is read and is OK. */
    method SettleWithRetry(id: Id, token: string, remove: bool, net: seq<Net>) returns (ok: bool, made: nat)
      requires |net| == 3 && DistinctJobs(jobs)
      modifies this
      ensures jobs == if exists k: nat :: FirstSent(net, k) then Settle(old(jobs), id, token, remove).0 else old(jobs)
      ensures ok <==> && Settle(old(jobs), id, token, remove).1 == OK
                      && exists k: nat :: FirstSent(net, k) && net[k] == Delivered
      ensures 1 <= made <= 3 && (ok ==> FirstSent(net, made - 1))
      // a lost lease ends the attempts as soon as it is read; an unknown job does not
      ensures Settle(old(jobs), id, token, remove).1 == CONFLICT ==>
                Delivered !in net[..made - 1] && (made < 3 ==> net[made - 1] == Delivered)
      ensures Settle(old(jobs), id, token, remove).1 == NOT_FOUND ==> made == 3
    {
      ghost var (settled, code) := Settle(old(jobs), id, token, remove);
      ghost var landed := false;
      ok, made := false, 0;
      SettleRefused(old(jobs), id, token, remove);
      while made < 3
        invariant 0 <= made <= 3 && !ok
        invariant if landed then code == OK && jobs == settled else jobs == old(jobs)
        invariant landed ==> exists k: nat :: k < made && FirstSent(net, k) && net[k] == ReplyLost
        invariant !landed && code == OK ==> forall i :: 0 <= i < made ==> net[i] == RequestLost
        invariant code == CONFLICT ==> Delivered !in net[..made]
      {
        made := made + 1;
        if net[made - 1] == RequestLost {
          continue;
        }
        var status := SettleJob(id, token, remove);
        if landed {
          SettleTwice(old(jobs), id, token, remove);
        } else {
          landed := status == OK;
          assert landed ==> FirstSent(net, made - 1);
        }
        if net[made - 1] == Delivered {
          if status == OK {
            return true, made;
          }
          if status == CONFLICT {
            return false, made;
          }
        }
      }
    }
  }

  /** Request `k` is the first that reaches the server. */
  ghost predicate FirstSent(net: seq<Net>, k: nat) {
    k < |net| && net[k] != RequestLost && forall i :: 0 <= i < k ==> net[i] == RequestLost
  }

  lemma {:induction false} LeaseSkips(jobs: seq<Job>, i: nat, now: int, vis: nat, token: string)
    requires i <= |jobs| && forall k :: 0 <= k < i ==> now < jobs[k].visible
    requires i == |jobs| || jobs[i].visible <= now
    ensures i == |jobs| ==> Lease(jobs, now, vis, token) == (jobs, None)
    ensures i < |jobs| ==>
              var j := jobs[i].(attempt := jobs[i].attempt + 1, token := token, visible := now + vis);
              Lease(jobs, now, vis, token) == (jobs[i := j], Some(j))
  {
    if i > 0 {
      LeaseSkips(jobs[1..], i - 1, now, vis, token);
      assert jobs == [jobs[0]] + jobs[1..];
      if i < |jobs| {
        var j := jobs[i].(attempt := jobs[i].attempt + 1, token := token, visible := now + vis);
        assert [jobs[0]] + jobs[1..][i - 1 := j] == jobs[i := j];
      }
    } else if jobs != [] {
      var j := jobs[0].(attempt := jobs[0].attempt + 1, token := token, visible := now + vis);
      assert [j] + jobs[1..] == jobs[0 := j];
    }
  }

  /** Replacing or removing an element behind the first. */
  lemma PastFirst(jobs: seq<Job>, i: nat, j: Job)
    requires 0 < i < |jobs|
    ensures [jobs[0]] + jobs[1..][i - 1 := j] == jobs[i := j]
    ensures [jobs[0]] + (jobs[1..][..i - 1] + jobs[1..][i..]) == jobs[..i] + jobs[i + 1..]
  {}

  lemma {:induction false} SettleSkips(jobs: seq<Job>, i: nat, id: Id, token: string, remove: bool)
    requires i <= |jobs| && forall k :: 0 <= k < i ==> jobs[k].id != id
    requires i == |jobs| || jobs[i].id == id
    ensures Settle(jobs, id, token, remove) ==
              if i == |jobs| then (jobs, NOT_FOUND)
              else if jobs[i].token == "" || token != jobs[i].token then (jobs, CONFLICT)
              else if remove then (jobs[..i] + jobs[i + 1..], OK)
              else (jobs[i := jobs[i].(token := "", visible := 0)], OK)
  {
    if i > 0 {
      SettleSkips(jobs[1..], i - 1, id, token, remove);
      assert jobs == [jobs[0]] + jobs[1..];
      if i < |jobs| { PastFirst(jobs, i, jobs[i].(token := "", visible := 0)); }
    } else if jobs != [] {
      var j := jobs[0].(token := "", visible := 0);
      assert [j] + jobs[1..] == jobs[0 := j];
      assert jobs[..0] + jobs[1..] == jobs[1..];
    }
  }

  // ---- what the operations mean -------------------------------------------------------------

  ghost predicate DistinctJobs(jobs: seq<Job>) {
    forall i, j :: 0 <= i < j < |jobs| ==> jobs[i].id != jobs[j].id
  }

  /** A refused settle changes nothing. */
  lemma {:induction false} SettleRefused(jobs: seq<Job>, id: Id, token: string, remove: bool)
    ensures Settle(jobs, id, token, remove).1 != OK ==> Settle(jobs, id, token, remove).0 == jobs
    ensures Settle(jobs, id, token, remove).1 in {OK, NOT_FOUND, CONFLICT}
  {
    if jobs != [] && jobs[0].id != id {
      SettleRefused(jobs[1..], id, token, remove);
      assert [jobs[0]] + jobs[1..] == jobs;
    }
  }

  /** Settling is idempotent: the same request again is refused and changes nothing. */
  lemma {:induction false} SettleTwice(jobs: seq<Job>, id: Id, token: string, remove: bool)
    requires DistinctJobs(jobs)
    ensures var (once, code) := Settle(jobs, id, token, remove);
            code == OK ==> Settle(once, id, token, remove).0 == once && Settle(once, id, token, remove).1 != OK
  {
    if jobs != [] {
      if jobs[0].id != id {
        SettleTwice(jobs[1..], id, token, remove);
      } else if remove && jobs[0].token != "" && token == jobs[0].token {
        NotFound(jobs[1..], id, token, remove);
      }
    }
  }

  lemma {:induction false} NotFound(jobs: seq<Job>, id: Id, token: string, remove: bool)
    requires forall j :: j in jobs ==> j.id != id
    ensures Settle(jobs, id, token, remove) == (jobs, NOT_FOUND)
  {
    if jobs != [] {
      NotFound(jobs[1..], id, token, remove);
      assert [jobs[0]] + jobs[1..] == jobs;
    }
  }

  /** The replies to a settle and what each of them means. */
  lemma SettleMeans(jobs: seq<Job>, id: Id, token: string, remove: bool)
    requires DistinctJobs(jobs)
    ensures var (after, code) := Settle(jobs, id, token, remove);
            && (code == 200 || code == 404 || code == 409)
            && (code == 404 <==> forall j :: j in jobs ==> j.id != id)
            && (code == 200 <==> token != "" && exists j :: j in jobs && j.id == id && j.token == token)
            && (code != 200 ==> after == jobs)
            && (code == 200 && remove ==> forall j :: j in after <==> j in jobs && j.id != id)
            && (code == 200 && !remove ==>
                  && |after| == |jobs|
                  && forall i :: 0 <= i < |jobs| ==>
                       after[i] == if jobs[i].id == id then jobs[i].(token := "", visible := 0) else jobs[i])
  {
    var i := 0;
    while i < |jobs| && jobs[i].id != id
      invariant 0 <= i <= |jobs| && forall k :: 0 <= k < i ==> jobs[k].id != id
    {
      i := i + 1;
    }
    SettleSkips(jobs, i, id, token, remove);
    if i < |jobs| {
      assert jobs[i] in jobs;
      assert jobs == jobs[..i] + [jobs[i]] + jobs[i + 1..];
    }
  }

  /** Position `k`, the first visible one, was leased; the rest is as before. */
  ghost predicate LeasedAt(jobs: seq<Job>, after: seq<Job>, k: int, now: int, vis: nat, token: string, leased: Job) {
    && 0 <= k < |jobs|
    && jobs[k].visible <= now
    && (forall i :: 0 <= i < k ==> now < jobs[i].visible)
    && leased == jobs[k].(attempt := jobs[k].attempt + 1, token := token, visible := now + vis)
    && after == jobs[k := leased]
  }

  lemma LeaseShape(jobs: seq<Job>, now: int, vis: nat, token: string) returns (k: int)
    ensures var (after, leased) := Lease(jobs, now, vis, token);
            if leased.None? then after == jobs && forall i :: 0 <= i < |jobs| ==> now < jobs[i].visible
            else LeasedAt(jobs, after, k, now, vis, token, leased.value)
  {
    k := 0;
    while k < |jobs| && now < jobs[k].visible
      invariant 0 <= k <= |jobs| && forall i :: 0 <= i < k ==> now < jobs[i].visible
    {
      k := k + 1;
    }
    LeaseSkips(jobs, k, now, vis, token);
  }

  /** What a settle with reply 200 did: it found the job `id` holding exactly this token. */
  ghost predicate SettledAt(jobs: seq<Job>, after: seq<Job>, k: int, id: Id, token: string, remove: bool) {
    && 0 <= k < |jobs| && jobs[k].id == id && jobs[k].token == token && token != ""
    && after == if remove then jobs[..k] + jobs[k + 1..] else jobs[k := jobs[k].(token := "", visible := 0)]
  }

  lemma SettleShape(jobs: seq<Job>, id: Id, token: string, remove: bool) returns (k: int)
    requires Settle(jobs, id, token, remove).1 == OK
    ensures SettledAt(jobs, Settle(jobs, id, token, remove).0, k, id, token, remove)
  {
    k := 0;
    while k < |jobs| && jobs[k].id != id
      invariant 0 <= k <= |jobs| && forall i :: 0 <= i < k ==> jobs[i].id != id
    {
      k := k + 1;
    }
    SettleSkips(jobs, k, id, token, remove);
  }

  // ---- the protocol ---------------------------------------------------------------------------

  datatype Worker =
    | Idle
    | Busy(id: Id, payload: Payload, token: string)               // inside the handler
    | Settling(ack: bool, id: Id, token: string, left: nat)       // inside settle, `left` attempts to go

  /** One lease the server granted. */
  datatype Grant = Grant(job: Id, token: string, at: int, deadline: int)

  /** An ack or nack on its way to the server. */
  datatype Request = Request(ack: bool, id: Id, token: string)

  datatype State = State(
    now: int,
    jobs: seq<Job>,
    workers: map<nat, Worker>,
    sent: set<Request>,              // may still arrive, whatever its sender does meanwhile
    // history
    enqueued: map<Id, Payload>,
    acked: set<Id>,
    calls: seq<Id>,                  // the jobs handlers were called on
    succeeded: set<(Id, Payload)>,   // handler calls that returned success
    grants: seq<Grant>,
    nacked: set<string>)             // tokens whose nack was carried out

  datatype Step =
    | Tick(d: nat)
    | Enqueue(id: Id, payload: Payload)
    | Grab(w: nat, vis: nat, token: string, delivered: bool)  // lease; its reply may get lost
    | HandlerReturns(w: nat, success: bool)                    // an error or a panic is no success
    | Send(w: nat, net: Net)                                   // one attempt of settle
    | Arrive(request: Request)                                 // a delayed or repeated one
    | Crash(w: nat)

  function WorkerOf(s: State, w: nat): Worker {
    if w in s.workers then s.workers[w] else Idle
  }

  predicate Enabled(s: State, step: Step) {
    match step
    case Tick(_) => true
    case Enqueue(id, payload) => id !in s.enqueued && payload.prompt != "" && payload.reply != ""
    case Grab(w, vis, token, _) =>
      WorkerOf(s, w).Idle? && 1 <= vis <= 3600 && token != "" && forall g :: g in s.grants ==> g.token != token
    case HandlerReturns(w, _) => WorkerOf(s, w).Busy?
    case Send(w, _) => WorkerOf(s, w).Settling? && WorkerOf(s, w).left > 0
    case Arrive(request) => request in s.sent
    case Crash(_) => true
  }

  function SetWorker(s: State, w: nat, worker: Worker): State {
    s.(workers := s.workers[w := worker])
  }

  /** The settle call goes on to its next attempt, or gives up after the last. */
  function Retry(s: State, w: nat): State
    requires WorkerOf(s, w).Settling? && WorkerOf(s, w).left > 0
  {
    var k := WorkerOf(s, w);
    SetWorker(s, w, if k.left == 1 then Idle else k.(left := k.left - 1))
  }

  function RequestOf(k: Worker): Request
    requires k.Settling?
  {
    Request(k.ack, k.id, k.token)
  }

  /** The server carries out a settle request. */
  function Serve(s: State, r: Request): State {
    var (jobs, code) := Settle(s.jobs, r.id, r.token, r.ack);
    if code != OK then s
    else if r.ack then s.(jobs := jobs, acked := s.acked + {r.id})
    else s.(jobs := jobs, nacked := s.nacked + {r.token})
  }

  function Next(s: State, step: Step): State
    requires Enabled(s, step)
  {
    match step
    case Tick(d) => s.(now := s.now + d)
    case Enqueue(id, payload) =>
      s.(jobs := s.jobs + [Job(id, payload, "", 0, 0)], enqueued := s.enqueued[id := payload])
    case Grab(w, vis, token, delivered) =>
      var (jobs, leased) := Lease(s.jobs, s.now, vis, token);
      if leased.None? then s
      else
        var j := leased.value;
        var t := s.(jobs := jobs, grants := s.grants + [Grant(j.id, token, s.now, s.now + vis)]);
        if delivered then SetWorker(t, w, Busy(j.id, j.payload, token)).(calls := t.calls + [j.id]) else t
    case HandlerReturns(w, success) =>
      var k := WorkerOf(s, w);
      var t := SetWorker(s, w, Settling(success, k.id, k.token, 3));
      if success then t.(succeeded := s.succeeded + {(k.id, k.payload)}) else t
    case Send(w, net) =>
      var k := WorkerOf(s, w);
      var sending := s.(sent := s.sent + {RequestOf(k)});
      if net.RequestLost? then Retry(sending, w)
      else
        var code := Settle(s.jobs, k.id, k.token, k.ack).1;
        var t := Serve(sending, RequestOf(k));
        if net.Delivered? && (code == OK || code == CONFLICT) then SetWorker(t, w, Idle) else Retry(t, w)
    case Arrive(request) => Serve(s, request)
    case Crash(w) => SetWorker(s, w, Idle)
  }

  ghost predicate Initial(s: State) {
    s == State(s.now, [], map[], {}, map[], {}, [], {}, [], {}) && s.now > 0
  }

  ghost predicate IsRun(ss: seq<State>, steps: seq<Step>) {
    && |ss| == |steps| + 1 && Initial(ss[0])
    && forall i :: 0 <= i < |steps| ==> Enabled(ss[i], steps[i]) && ss[i + 1] == Next(ss[i], steps[i])
  }

  // ---- nothing lost, nothing invented -----------------------------------------------------------

  /** The jobs carry exactly the ids and payloads of `m`, each id once. */
  ghost predicate Holds(jobs: seq<Job>, m: map<Id, Payload>) {
    && DistinctJobs(jobs)
    && (forall i :: 0 <= i < |jobs| ==> jobs[i].id in m && m[jobs[i].id] == jobs[i].payload)
    && (forall id :: id in m ==> InQueue(jobs, id))
  }

  ghost predicate InQueue(jobs: seq<Job>, id: Id) {
    exists i :: 0 <= i < |jobs| && jobs[i].id == id
  }

  /** Each enqueued job is either in the queue or acknowledged, never both, never neither. */
  ghost predicate JobsHeld(s: State) {
    Holds(s.jobs, s.enqueued - s.acked)
  }

  /** What a worker holds is a real job, and what it is about to acknowledge succeeded. */
  ghost predicate Earned(s: State, k: Worker) {
    match k
    case Idle => true
    case Busy(id, payload, _) => id in s.enqueued && s.enqueued[id] == payload
    case Settling(ack, id, _, _) => id in s.enqueued && (ack ==> (id, s.enqueued[id]) in s.succeeded)
  }

  ghost predicate EarnedRequest(s: State, r: Request) {
    r.id in s.enqueued && (r.ack ==> (r.id, s.enqueued[r.id]) in s.succeeded)
  }

  /** An acknowledged job had a handler call on its own payload that returned success, and
      so has every job a worker, or a request on its way, is about to acknowledge. */
  ghost predicate AcksEarned(s: State) {
    && (forall id :: id in s.acked ==> id in s.enqueued && (id, s.enqueued[id]) in s.succeeded)
    && (forall w :: w in s.workers ==> Earned(s, s.workers[w]))
    && (forall r :: r in s.sent ==> EarnedRequest(s, r))
  }

  lemma HoldsAppend(jobs: seq<Job>, m: map<Id, Payload>, j: Job)
    requires Holds(jobs, m) && j.id !in m
    ensures Holds(jobs + [j], m[j.id := j.payload])
  {
    var after := jobs + [j];
    forall id | id in m[j.id := j.payload] ensures InQueue(after, id) {
      if id == j.id {
        assert after[|jobs|].id == id;
      } else {
        var i :| 0 <= i < |jobs| && jobs[i].id == id;
        assert after[i].id == id;
      }
    }
  }

  lemma HoldsReplace(jobs: seq<Job>, m: map<Id, Payload>, k: int, j: Job)
    requires Holds(jobs, m) && 0 <= k < |jobs| && j.id == jobs[k].id && j.payload == jobs[k].payload
    ensures Holds(jobs[k := j], m)
  {
    var after := jobs[k := j];
    assert forall i :: 0 <= i < |after| ==> after[i].id == jobs[i].id && after[i].payload == jobs[i].payload;
    forall id | id in m ensures InQueue(after, id) {
      var i :| 0 <= i < |jobs| && jobs[i].id == id;
      assert after[i].id == id;
    }
  }

  lemma HoldsRemove(jobs: seq<Job>, m: map<Id, Payload>, k: int)
    requires Holds(jobs, m) && 0 <= k < |jobs|
    ensures Holds(jobs[..k] + jobs[k + 1..], m - {jobs[k].id})
  {
    var after, rest := jobs[..k] + jobs[k + 1..], m - {jobs[k].id};
    RemoveKeepsDistinct(jobs, k);
    forall i | 0 <= i < |after| ensures after[i].id in rest && rest[after[i].id] == after[i].payload {
      assert after[i] == jobs[if i < k then i else i + 1];
    }
    forall id | id in rest ensures InQueue(after, id) { RemoveKeepsOthers(jobs, k, id); }
  }

  lemma RemoveKeepsDistinct(jobs: seq<Job>, k: int)
    requires DistinctJobs(jobs) && 0 <= k < |jobs|
    ensures DistinctJobs(jobs[..k] + jobs[k + 1..])
  {
    var after := jobs[..k] + jobs[k + 1..];
    forall i, l | 0 <= i < l < |after| ensures after[i].id != after[l].id {
      assert after[i] == jobs[if i < k then i else i + 1] && after[l] == jobs[if l < k then l else l + 1];
    }
  }

  lemma RemoveKeepsOthers(jobs: seq<Job>, k: int, id: Id)
    requires 0 <= k < |jobs| && InQueue(jobs, id) && id != jobs[k].id
    ensures InQueue(jobs[..k] + jobs[k + 1..], id)
  {
    var after := jobs[..k] + jobs[k + 1..];
    var i :| 0 <= i < |jobs| && jobs[i].id == id;
    assert after[if i < k then i else i - 1] == jobs[i];
  }

  // ---- leases --------------------------------------------------------------------------------------

  /** The most recent lease granted on `id`. */
  function Latest(grants: seq<Grant>, id: Id): Option<Grant> {
    if grants == [] then None
    else if grants[|grants| - 1].job == id then Some(grants[|grants| - 1])
    else Latest(grants[..|grants| - 1], id)
  }

  lemma {:induction false} LatestIsLast(grants: seq<Grant>, id: Id) returns (m: int)
    ensures if Latest(grants, id).None? then forall i :: 0 <= i < |grants| ==> grants[i].job != id
            else 0 <= m < |grants| && Latest(grants, id) == Some(grants[m]) && grants[m].job == id
                 && forall i :: m < i < |grants| ==> grants[i].job != id
  {
    m := |grants| - 1;
    if grants != [] && grants[m].job != id {
      m := LatestIsLast(grants[..|grants| - 1], id);
    }
  }

  /** A job's token and deadline are those of the latest lease on it, until a nack clears
      them. */
  ghost predicate TokenCurrent(s: State, j: Job) {
    var g := Latest(s.grants, j.id);
    if j.token == "" then j.visible == 0 && (g.None? || g.value.token in s.nacked)
    else g.Some? && g.value.token == j.token && g.value.deadline == j.visible
  }

  ghost predicate TokensFresh(s: State) {
    && (forall i, k :: 0 <= i < k < |s.grants| ==> s.grants[i].token != s.grants[k].token)
    && (forall i :: 0 <= i < |s.grants| ==>
          s.grants[i].token != "" && s.grants[i].job in s.enqueued && s.grants[i].at <= s.now)
  }

  /** A leased job is not handed out again before its deadline unless it was nacked. */
  ghost predicate Spaced(s: State) {
    forall i, k :: 0 <= i < k < |s.grants| && s.grants[i].job == s.grants[k].job ==>
      s.grants[i].deadline <= s.grants[k].at || s.grants[i].token in s.nacked
  }

  ghost predicate LeasesKept(s: State) {
    TokensFresh(s) && Spaced(s) && s.now > 0 && forall i :: 0 <= i < |s.jobs| ==> TokenCurrent(s, s.jobs[i])
  }

  // ---- every step keeps both --------------------------------------------------------------------

  lemma StepHolds(s: State, step: Step)
    requires JobsHeld(s) && Enabled(s, step) && s.acked <= s.enqueued.Keys
    ensures JobsHeld(Next(s, step))
  {
    var m := s.enqueued - s.acked;
    match step {
      case Enqueue(id, payload) =>
        HoldsAppend(s.jobs, m, Job(id, payload, "", 0, 0));
        assert s.enqueued[id := payload] - s.acked == m[id := payload];
      case Grab(w, vis, token, delivered) =>
        var k := LeaseShape(s.jobs, s.now, vis, token);
        var leased := Lease(s.jobs, s.now, vis, token).1;
        if leased.Some? {
          HoldsReplace(s.jobs, m, k, leased.value);
        }
      case Send(w, net) => ServeHolds(s, RequestOf(WorkerOf(s, w)));
      case Arrive(request) => ServeHolds(s, request);
      case _ =>
    }
  }

  lemma SubtractMore(m: map<Id, Payload>, gone: set<Id>, id: Id)
    ensures m - (gone + {id}) == m - gone - {id}
  {}

  lemma ServeHolds(s: State, r: Request)
    requires JobsHeld(s)
    ensures JobsHeld(Serve(s, r))
  {
    var m := s.enqueued - s.acked;
    if Settle(s.jobs, r.id, r.token, r.ack).1 == OK {
      var i := SettleShape(s.jobs, r.id, r.token, r.ack);
      if r.ack {
        HoldsRemove(s.jobs, m, i);
        SubtractMore(s.enqueued, s.acked, r.id);
      } else {
        HoldsReplace(s.jobs, m, i, s.jobs[i].(token := "", visible := 0));
      }
    }
  }

  lemma GrabEarns(s: State, w: nat, vis: nat, token: string, delivered: bool)
    requires JobsHeld(s) && AcksEarned(s) && Enabled(s, Grab(w, vis, token, delivered))
    ensures AcksEarned(Next(s, Grab(w, vis, token, delivered)))
  {
    var k := LeaseShape(s.jobs, s.now, vis, token);
    var leased := Lease(s.jobs, s.now, vis, token).1;
    if leased.Some? {
      assert s.jobs[k].id in s.enqueued - s.acked;
      MoveEarns(s, w, Busy(leased.value.id, leased.value.payload, token));
    }
  }

  lemma ReturnEarns(s: State, w: nat, success: bool)
    requires AcksEarned(s) && Enabled(s, HandlerReturns(w, success))
    ensures AcksEarned(Next(s, HandlerReturns(w, success)))
  {
    var k := WorkerOf(s, w);
    var t := if success then s.(succeeded := s.succeeded + {(k.id, k.payload)}) else s;
    MoveEarns(t, w, Settling(success, k.id, k.token, 3));
  }

  lemma AttemptEarns(s: State, w: nat, net: Net)
    requires JobsHeld(s) && AcksEarned(s) && Enabled(s, Send(w, net))
    ensures AcksEarned(Next(s, Send(w, net)))
  {
    SendEarns(s, w);
    var k := WorkerOf(s, w);
    var sending := s.(sent := s.sent + {RequestOf(k)});
    var t := if net.RequestLost? then sending else Serve(sending, RequestOf(k));
    MoveEarns(t, w, Idle);
    MoveEarns(t, w, k.(left := k.left - 1));
  }

  lemma StepEarns(s: State, step: Step)
    requires JobsHeld(s) && AcksEarned(s) && Enabled(s, step)
    ensures AcksEarned(Next(s, step))
  {
    match step {
      case Grab(w, vis, token, delivered) => GrabEarns(s, w, vis, token, delivered);
      case HandlerReturns(w, success) => ReturnEarns(s, w, success);
      case Send(w, net) => AttemptEarns(s, w, net);
      case Arrive(request) => ServeEarns(s, request);
      case Crash(w) => MoveEarns(s, w, Idle);
      case _ =>
    }
  }

  lemma SendEarns(s: State, w: nat)
    requires AcksEarned(s) && WorkerOf(s, w).Settling?
    ensures var k := WorkerOf(s, w);
            var sending := s.(sent := s.sent + {RequestOf(k)});
            && AcksEarned(sending) && AcksEarned(Serve(sending, RequestOf(k)))
            && Earned(sending, k) && Earned(Serve(sending, RequestOf(k)), k)
  {
    var sending := s.(sent := s.sent + {RequestOf(WorkerOf(s, w))});
    assert AcksEarned(sending);
    ServeEarns(sending, RequestOf(WorkerOf(s, w)));
  }

  lemma ServeEarns(s: State, r: Request)
    requires AcksEarned(s) && EarnedRequest(s, r)
    ensures AcksEarned(Serve(s, r))
  {}

  lemma MoveEarns(s: State, w: nat, k: Worker)
    requires AcksEarned(s) && Earned(s, k)
    ensures AcksEarned(SetWorker(s, w, k))
  {}

  lemma LatestAppend(grants: seq<Grant>, g: Grant, id: Id)
    ensures Latest(grants + [g], id) == if g.job == id then Some(g) else Latest(grants, id)
  {
    assert (grants + [g])[..|grants|] == grants;
  }

  /** Every earlier lease of a visible job has run out or was nacked. */
  lemma GrabIsSpaced(s: State, k: int)
    requires Spaced(s) && 0 <= k < |s.jobs| && s.jobs[k].visible <= s.now && TokenCurrent(s, s.jobs[k])
    requires forall i :: 0 <= i < |s.grants| ==> s.grants[i].at <= s.now
    ensures forall i :: 0 <= i < |s.grants| && s.grants[i].job == s.jobs[k].id ==>
              s.grants[i].deadline <= s.now || s.grants[i].token in s.nacked
  {
    var m := LatestIsLast(s.grants, s.jobs[k].id);
    forall i | 0 <= i < |s.grants| && s.grants[i].job == s.jobs[k].id
      ensures s.grants[i].deadline <= s.now || s.grants[i].token in s.nacked
    {
      if i < m { assert s.grants[i].job == s.grants[m].job; }
    }
  }

  lemma GrabKeepsLeases(s: State, w: nat, vis: nat, token: string, delivered: bool)
    requires JobsHeld(s) && LeasesKept(s) && Enabled(s, Grab(w, vis, token, delivered))
    ensures LeasesKept(Next(s, Grab(w, vis, token, delivered)))
  {
    var t := Next(s, Grab(w, vis, token, delivered));
    var k := LeaseShape(s.jobs, s.now, vis, token);
    var leased := Lease(s.jobs, s.now, vis, token).1;
    if leased.Some? {
      var id, n := s.jobs[k].id, |s.grants|;
      var g := Grant(id, token, s.now, s.now + vis);
      assert t.grants == s.grants + [g] && id in s.enqueued;
      assert TokenCurrent(s, s.jobs[k]);
      assert TokensFresh(t) by { GrabIsFresh(s, t, g); }
      assert Spaced(t) by { GrabIsSpaced(s, k); }
      forall i | 0 <= i < |t.jobs| ensures TokenCurrent(t, t.jobs[i]) {
        assert TokenCurrent(s, s.jobs[i]);
        GrabKeepsTokens(s, t, k, i, leased.value, g);
      }
    }
  }

  lemma GrabIsFresh(s: State, t: State, g: Grant)
    requires TokensFresh(s) && t.grants == s.grants + [g] && t.enqueued == s.enqueued && t.now == s.now
    requires g.token != "" && g.job in s.enqueued && g.at <= s.now && forall h :: h in s.grants ==> h.token != g.token
    ensures TokensFresh(t)
  {
    forall i | 0 <= i < |s.grants| ensures s.grants[i].token != g.token { assert s.grants[i] in s.grants; }
  }

  lemma GrabKeepsTokens(s: State, t: State, k: int, i: int, j: Job, g: Grant)
    requires DistinctJobs(s.jobs) && 0 <= k < |s.jobs| && 0 <= i < |s.jobs| && TokenCurrent(s, s.jobs[i])
    requires t.jobs == s.jobs[k := j] && t.grants == s.grants + [g] && t.nacked == s.nacked
    requires g.job == j.id == s.jobs[k].id && g.token == j.token != "" && g.deadline == j.visible
    ensures TokenCurrent(t, t.jobs[i])
  {
    LatestAppend(s.grants, g, t.jobs[i].id);
  }

  lemma ServeKeepsLeases(s: State, r: Request)
    requires JobsHeld(s) && LeasesKept(s)
    ensures LeasesKept(Serve(s, r))
  {
    var t := Serve(s, r);
    if Settle(s.jobs, r.id, r.token, r.ack).1 == OK {
      var x := SettleShape(s.jobs, r.id, r.token, r.ack);
      assert TokenCurrent(s, s.jobs[x]);
      forall i | 0 <= i < |t.jobs| ensures TokenCurrent(t, t.jobs[i]) {
        if r.ack {
          assert t.jobs[i] == s.jobs[if i < x then i else i + 1];
        } else if i != x {
          assert t.jobs[i] == s.jobs[i];
        }
      }
    }
  }

  /** Leases do not depend on the workers, and time only makes them older. */
  lemma LeasesCarry(s: State, t: State)
    requires LeasesKept(s) && t.jobs == s.jobs && t.grants == s.grants && t.nacked == s.nacked
    requires s.enqueued == t.enqueued && s.now <= t.now
    ensures LeasesKept(t)
  {
    forall i | 0 <= i < |t.jobs| ensures TokenCurrent(t, t.jobs[i]) { assert TokenCurrent(s, s.jobs[i]); }
  }

  lemma EnqueueKeepsLeases(s: State, id: Id, payload: Payload)
    requires LeasesKept(s) && id !in s.enqueued
    ensures LeasesKept(s.(jobs := s.jobs + [Job(id, payload, "", 0, 0)], enqueued := s.enqueued[id := payload]))
  {
    var m := LatestIsLast(s.grants, id);
    var t := s.(jobs := s.jobs + [Job(id, payload, "", 0, 0)], enqueued := s.enqueued[id := payload]);
    forall i | 0 <= i < |t.jobs| ensures TokenCurrent(t, t.jobs[i]) {
      if i < |s.jobs| { assert TokenCurrent(s, s.jobs[i]); }
    }
  }

  lemma StepKeepsLeases(s: State, step: Step)
    requires JobsHeld(s) && LeasesKept(s) && Enabled(s, step)
    ensures LeasesKept(Next(s, step))
  {
    match step {
      case Enqueue(id, payload) => EnqueueKeepsLeases(s, id, payload);
      case Grab(w, vis, token, delivered) => GrabKeepsLeases(s, w, vis, token, delivered);
      case Send(w, net) =>
        ServeKeepsLeases(s, RequestOf(WorkerOf(s, w)));
        LeasesCarry(if net.RequestLost? then s else Serve(s, RequestOf(WorkerOf(s, w))), Next(s, step));
      case Arrive(request) => ServeKeepsLeases(s, request);
      case _ => LeasesCarry(s, Next(s, step));
    }
  }

  ghost predicate Inv(s: State) {
    JobsHeld(s) && AcksEarned(s) && LeasesKept(s)
  }

  lemma StepKeepsInv(s: State, step: Step)
    requires Inv(s) && Enabled(s, step)
    ensures Inv(Next(s, step))
  {
    StepHolds(s, step);
    StepEarns(s, step);
    StepKeepsLeases(s, step);
  }

  lemma {:induction false} RunKeepsInv(ss: seq<State>, steps: seq<Step>, n: nat)
    requires IsRun(ss, steps) && n < |ss|
    ensures Inv(ss[n])
  {
    if n > 0 {
      RunKeepsInv(ss, steps, n - 1);
      StepKeepsInv(ss[n - 1], steps[n - 1]);
    }
  }

  // ---- the results ----------------------------------------------------------------------------------

  /** Over every run: an enqueued job is in the queue with its own payload or it is
      acknowledged, not both; nothing else is in the queue; and an acknowledged job was
      handled successfully. */
  lemma NothingLost(ss: seq<State>, steps: seq<Step>, n: nat, id: Id)
    requires IsRun(ss, steps) && n < |ss|
    ensures var s := ss[n];
            && (id in s.enqueued ==> (id in s.acked <==> !InQueue(s.jobs, id)))
            && (id in s.acked ==> id in s.enqueued && (id, s.enqueued[id]) in s.succeeded)
            && (forall i :: 0 <= i < |s.jobs| ==>
                s.jobs[i].id in s.enqueued && s.enqueued[s.jobs[i].id] == s.jobs[i].payload)
  {
    RunKeepsInv(ss, steps, n);
  }

  /** A settle that changes the server holds the latest lease on its job: one repeated
      after its reply was lost, or arriving after the job was leased anew, changes nothing. */
  lemma SettleTouchesOwnLeaseOnly(ss: seq<State>, steps: seq<Step>, n: nat, r: Request)
    requires IsRun(ss, steps) && n < |ss|
    ensures Serve(ss[n], r) != ss[n] ==>
              Latest(ss[n].grants, r.id).Some? && Latest(ss[n].grants, r.id).value.token == r.token
    ensures (exists i, j :: 0 <= i < j < |ss[n].grants| && ss[n].grants[i].job == ss[n].grants[j].job == r.id
                            && r.token == ss[n].grants[i].token)
            ==> Serve(ss[n], r) == ss[n]
  {
    RunKeepsInv(ss, steps, n);
    var s := ss[n];
    if Settle(s.jobs, r.id, r.token, r.ack).1 == OK {
      var x := SettleShape(s.jobs, r.id, r.token, r.ack);
      assert TokenCurrent(s, s.jobs[x]);
      var m := LatestIsLast(s.grants, r.id);
    }
  }

  /** Between two leases of one job the first deadline passed or the first was nacked. */
  lemma NoEarlyRedelivery(ss: seq<State>, steps: seq<Step>, n: nat, i: nat, k: nat)
    requires IsRun(ss, steps) && n < |ss| && i < k < |ss[n].grants|
    requires ss[n].grants[i].job == ss[n].grants[k].job
    ensures ss[n].grants[i].deadline <= ss[n].grants[k].at || ss[n].grants[i].token in ss[n].nacked
    ensures ss[n].grants[i].token != ss[n].grants[k].token
  {
    RunKeepsInv(ss, steps, n);
  }

  // ---- exactly once, when every handler succeeds and its ack lands in time -----------------------------

  /** How often a handler was called on `id`. */
  function Calls(calls: seq<Id>, id: Id): nat {
    if calls == [] then 0
    else Calls(calls[..|calls| - 1], id) + if calls[|calls| - 1] == id then 1 else 0
  }

  /** Worker `w` is handling `j` under its current lease, or is acknowledging it. */
  ghost predicate Holding(s: State, w: nat, j: Job) {
    match WorkerOf(s, w)
    case Idle => false
    case Busy(id, _, token) => id == j.id && token == j.token
    case Settling(ack, id, token, left) => ack && id == j.id && token == j.token && left > 0
  }

  ghost predicate HoldsQueued(s: State, w: nat) {
    exists i :: 0 <= i < |s.jobs| && s.jobs[i].token != "" && Holding(s, w, s.jobs[i])
  }

  /** Every handler succeeds and its ack lands before the deadline of its lease: the clock does
      not reach that deadline while a worker still holds the job, the last attempt to
      acknowledge it is not lost, and the worker lives that long. Leases whose reply got lost
      may run out, and anything may happen to a worker whose ack has landed. */
  ghost predicate Timely(s: State, step: Step)
    requires Enabled(s, step)
  {
    match step
    case Tick(d) =>
      forall w, i :: 0 <= i < |s.jobs| && s.jobs[i].token != "" && Holding(s, w, s.jobs[i]) ==>
          s.now + d < s.jobs[i].visible
    case HandlerReturns(_, success) => success
    case Send(w, net) => net.RequestLost? && WorkerOf(s, w).left == 1 ==> !HoldsQueued(s, w)
    case Crash(w) => !HoldsQueued(s, w)
    case _ => true
  }

  ghost predicate Held(s: State, j: Job) {
    exists w :: Holding(s, w, j)
  }

  /** No handler was called on a job in the queue, or one was and its worker holds it in time. */
  ghost predicate OnTime(s: State, j: Job) {
    || Calls(s.calls, j.id) == 0
    || (Calls(s.calls, j.id) == 1 && j.token != "" && s.now < j.visible && Held(s, j))
  }

  predicate CalledFor(calls: seq<Id>, k: Worker) {
    (!k.Idle? ==> Calls(calls, k.id) > 0) && (k.Settling? ==> k.ack)
  }

  /** Workers and requests are about jobs a handler was called on, and only acknowledge. */
  ghost predicate Called(s: State) {
    && (forall id :: Calls(s.calls, id) > 0 ==> id in s.enqueued)
    && (forall w :: w in s.workers ==> CalledFor(s.calls, s.workers[w]))
    && (forall r :: r in s.sent ==> r.ack && Calls(s.calls, r.id) > 0)
  }

  ghost predicate OnceOnly(s: State) {
    && (forall i :: 0 <= i < |s.jobs| ==> OnTime(s, s.jobs[i]))
    && (forall id :: id in s.acked ==> Calls(s.calls, id) == 1)
    && Called(s)
  }

  lemma CallsAppend(calls: seq<Id>, called: Id, id: Id)
    ensures Calls(calls + [called], id) == Calls(calls, id) + if called == id then 1 else 0
  {
    assert (calls + [called])[..|calls|] == calls;
  }

  /** A job and the calls on it are untouched, and whoever held it still does. */
  lemma OnTimeCarries(s: State, t: State, j: Job)
    requires OnTime(s, j) && Calls(t.calls, j.id) == Calls(s.calls, j.id)
    requires j.token != "" && Held(s, j) ==> t.now < j.visible
    requires forall w :: Holding(s, w, j) ==> Holding(t, w, j)
    ensures OnTime(t, j)
  {
    if Calls(s.calls, j.id) > 0 {
      var w :| Holding(s, w, j);
      assert Holding(t, w, j);
    }
  }

  /** Moving a worker that holds no queued job changes nothing. */
  lemma TimelyMove(s: State, w: nat, worker: Worker)
    requires OnceOnly(s) && !HoldsQueued(s, w)
    requires CalledFor(s.calls, worker)
    ensures OnceOnly(SetWorker(s, w, worker))
  {
    var t := SetWorker(s, w, worker);
    forall i | 0 <= i < |t.jobs| ensures OnTime(t, t.jobs[i]) {
      assert OnTime(s, s.jobs[i]);
      if s.jobs[i].token != "" {
        forall v | Holding(s, v, s.jobs[i]) ensures Holding(t, v, s.jobs[i]) { assert v != w; }
        OnTimeCarries(s, t, s.jobs[i]);
      }
    }
  }

  /** The state after job `k` has been leased, with or without the reply arriving. */
  lemma TimelyLease(s: State, t: State, k: int, w: nat, j: Job, delivered: bool)
    requires DistinctJobs(s.jobs) && OnceOnly(s) && WorkerOf(s, w).Idle?
    requires 0 <= k < |s.jobs| && s.jobs[k].visible <= s.now
    requires j.id == s.jobs[k].id && j.token != "" && s.now < j.visible
    requires j.id in s.enqueued && j.id !in s.acked
    requires t.jobs == s.jobs[k := j] && t.now == s.now && t.acked == s.acked && t.enqueued == s.enqueued
        && t.sent == s.sent
    requires if delivered then t.workers == s.workers[w := Busy(j.id, j.payload, j.token)]
        && t.calls == s.calls + [j.id]
             else t.workers == s.workers && t.calls == s.calls
    ensures OnceOnly(t)
  {
    assert OnTime(s, s.jobs[k]);
    forall id ensures Calls(t.calls, id) == Calls(s.calls, id) + if delivered && id == j.id then 1 else 0 {
      CallsAppend(s.calls, j.id, id);
    }
    forall i | 0 <= i < |t.jobs| ensures OnTime(t, t.jobs[i]) {
      assert OnTime(s, s.jobs[i]);
      if i == k {
        if delivered { assert Holding(t, w, j); }
      } else {
        OnTimeCarries(s, t, s.jobs[i]);
      }
    }
  }

  lemma TimelyGrab(s: State, w: nat, vis: nat, token: string, delivered: bool)
    requires Inv(s) && OnceOnly(s) && Enabled(s, Grab(w, vis, token, delivered))
    ensures OnceOnly(Next(s, Grab(w, vis, token, delivered)))
  {
    var k := LeaseShape(s.jobs, s.now, vis, token);
    var leased := Lease(s.jobs, s.now, vis, token).1;
    if leased.Some? {
      assert s.jobs[k].id in s.enqueued - s.acked;
      TimelyLease(s, Next(s, Grab(w, vis, token, delivered)), k, w, leased.value, delivered);
    }
  }

  /** No queued job is under the lease of `r`. */
  ghost predicate Landed(s: State, r: Request) {
    forall i :: 0 <= i < |s.jobs| && s.jobs[i].id == r.id && s.jobs[i].token != "" ==> s.jobs[i].token != r.token
  }

  /** However late an ack arrives, it lands or has nothing left to do. */
  lemma TimelyServe(s: State, r: Request)
    requires JobsHeld(s) && OnceOnly(s) && r.ack && Calls(s.calls, r.id) > 0
    ensures OnceOnly(Serve(s, r)) && Landed(Serve(s, r), r)
  {
    var t := Serve(s, r);
    if Settle(s.jobs, r.id, r.token, r.ack).1 != OK {
      NotOwnJob(s, r);
    } else {
      var x := SettleShape(s.jobs, r.id, r.token, r.ack);
      AckIsTimely(s, t, x, r.id);
    }
  }

  /** An acknowledged job leaves the queue after its one call. */
  lemma AckIsTimely(s: State, t: State, x: int, id: Id)
    requires DistinctJobs(s.jobs) && OnceOnly(s) && 0 <= x < |s.jobs| && s.jobs[x].id == id && Calls(s.calls, id) > 0
    requires t == s.(jobs := s.jobs[..x] + s.jobs[x + 1..], acked := s.acked + {id})
    ensures OnceOnly(t) && forall i :: 0 <= i < |t.jobs| ==> t.jobs[i].id != id
  {
    assert OnTime(s, s.jobs[x]);
    forall i | 0 <= i < |t.jobs| ensures OnTime(t, t.jobs[i]) && t.jobs[i].id != id {
      var j := s.jobs[if i < x then i else i + 1];
      assert t.jobs[i] == j && j.id != id && OnTime(s, j);
      forall v | Holding(s, v, j) ensures Holding(t, v, j) {}
      OnTimeCarries(s, t, j);
    }
  }

  /** A settle the server refuses is not under the current lease of a queued job. */
  lemma NotOwnJob(s: State, r: Request)
    requires JobsHeld(s) && Settle(s.jobs, r.id, r.token, r.ack).1 != OK
    ensures Landed(s, r)
  {
    forall i | 0 <= i < |s.jobs| && s.jobs[i].id == r.id && s.jobs[i].token != "" ensures s.jobs[i].token != r.token {
      SettleSkips(s.jobs, i, r.id, r.token, r.ack);
    }
  }

  lemma TimelyLost(s: State, w: nat)
    requires OnceOnly(s) && WorkerOf(s, w).Settling? && WorkerOf(s, w).left > 1
    ensures OnceOnly(Retry(s, w))
  {
    var t := Retry(s, w);
    forall i | 0 <= i < |t.jobs| ensures OnTime(t, t.jobs[i]) {
      assert OnTime(s, s.jobs[i]);
      forall v | Holding(s, v, s.jobs[i]) ensures Holding(t, v, s.jobs[i]) {}
      OnTimeCarries(s, t, s.jobs[i]);
    }
  }

  lemma TimelySend(s: State, w: nat, net: Net)
    requires Inv(s) && OnceOnly(s) && Enabled(s, Send(w, net)) && Timely(s, Send(w, net))
    ensures OnceOnly(Next(s, Send(w, net)))
  {
    var k := WorkerOf(s, w);
    var sending := s.(sent := s.sent + {RequestOf(k)});
    SendingIsTimely(s, sending, w);
    if net.RequestLost? {
      if k.left > 1 { TimelyLost(sending, w); } else { TimelyMove(sending, w, Idle); }
    } else {
      TimelyAnswer(sending, w);
    }
  }

  /** Once its request has been carried out a worker holds no queued job. */
  lemma TimelyAnswer(s: State, w: nat)
    requires JobsHeld(s) && OnceOnly(s) && WorkerOf(s, w).Settling? && WorkerOf(s, w).left > 0
    ensures var t := Serve(s, RequestOf(WorkerOf(s, w)));
            OnceOnly(SetWorker(t, w, Idle)) && OnceOnly(Retry(t, w))
  {
    AnsweredHoldsNone(s, w);
    var k := WorkerOf(s, w);
    var t := Serve(s, RequestOf(k));
    TimelyMove(t, w, Idle);
    TimelyMove(t, w, k.(left := k.left - 1));
  }

  lemma AnsweredHoldsNone(s: State, w: nat)
    requires JobsHeld(s) && OnceOnly(s) && WorkerOf(s, w).Settling? && WorkerOf(s, w).left > 0
    ensures var t := Serve(s, RequestOf(WorkerOf(s, w)));
            OnceOnly(t) && WorkerOf(t, w) == WorkerOf(s, w) && !HoldsQueued(t, w)
  {
    TimelyServe(s, RequestOf(WorkerOf(s, w)));
  }

  lemma SendingIsTimely(s: State, t: State, w: nat)
    requires OnceOnly(s) && WorkerOf(s, w).Settling? && t == s.(sent := s.sent + {RequestOf(WorkerOf(s, w))})
    ensures OnceOnly(t) && (HoldsQueued(t, w) ==> HoldsQueued(s, w))
  {
    forall i | 0 <= i < |t.jobs| ensures OnTime(t, t.jobs[i]) {
      assert OnTime(s, s.jobs[i]);
      forall v | Holding(s, v, s.jobs[i]) ensures Holding(t, v, s.jobs[i]) {}
      OnTimeCarries(s, t, s.jobs[i]);
    }
    if HoldsQueued(t, w) {
      var i :| 0 <= i < |t.jobs| && t.jobs[i].token != "" && Holding(t, w, t.jobs[i]);
      assert Holding(s, w, s.jobs[i]);
    }
  }

  lemma TimelyEnqueue(s: State, id: Id, payload: Payload)
    requires OnceOnly(s) && Enabled(s, Enqueue(id, payload))
    ensures OnceOnly(Next(s, Enqueue(id, payload)))
  {
    var t := Next(s, Enqueue(id, payload));
    forall i | 0 <= i < |t.jobs| ensures OnTime(t, t.jobs[i]) {
      if i < |s.jobs| {
        assert OnTime(s, s.jobs[i]);
        forall v | Holding(s, v, s.jobs[i]) ensures Holding(t, v, s.jobs[i]) {}
        OnTimeCarries(s, t, s.jobs[i]);
      }
    }
  }

  lemma TimelyTick(s: State, d: nat)
    requires OnceOnly(s) && Timely(s, Tick(d))
    ensures OnceOnly(Next(s, Tick(d)))
  {
    var t := Next(s, Tick(d));
    forall i | 0 <= i < |t.jobs| ensures OnTime(t, t.jobs[i]) {
      assert OnTime(s, s.jobs[i]);
      forall v | Holding(s, v, s.jobs[i]) ensures Holding(t, v, s.jobs[i]) {}
      OnTimeCarries(s, t, s.jobs[i]);
    }
  }

  lemma TimelyReturn(s: State, w: nat)
    requires OnceOnly(s) && Enabled(s, HandlerReturns(w, true))
    ensures OnceOnly(Next(s, HandlerReturns(w, true)))
  {
    var t := Next(s, HandlerReturns(w, true));
    forall i | 0 <= i < |t.jobs| ensures OnTime(t, t.jobs[i]) {
      assert OnTime(s, s.jobs[i]);
      forall v | Holding(s, v, s.jobs[i]) ensures Holding(t, v, s.jobs[i]) {}
      OnTimeCarries(s, t, s.jobs[i]);
    }
  }

  lemma TimelyStep(s: State, step: Step)
    requires Inv(s) && OnceOnly(s) && Enabled(s, step) && Timely(s, step)
    ensures OnceOnly(Next(s, step))
  {
    match step {
      case Tick(d) => TimelyTick(s, d);
      case Enqueue(id, payload) => TimelyEnqueue(s, id, payload);
      case Grab(w, vis, token, delivered) => TimelyGrab(s, w, vis, token, delivered);
      case HandlerReturns(w, _) => TimelyReturn(s, w);
      case Send(w, net) => TimelySend(s, w, net);
      case Arrive(request) => TimelyServe(s, request);
      case Crash(w) => TimelyMove(s, w, Idle);
    }
  }

  lemma {:induction false} TimelyRun(ss: seq<State>, steps: seq<Step>, n: nat)
    requires IsRun(ss, steps) && n < |ss|
    requires forall i :: 0 <= i < |steps| ==> Enabled(ss[i], steps[i]) && Timely(ss[i], steps[i])
    ensures Inv(ss[n]) && OnceOnly(ss[n])
  {
    RunKeepsInv(ss, steps, n);
    if n > 0 {
      TimelyRun(ss, steps, n - 1);
      TimelyStep(ss[n - 1], steps[n - 1]);
    }
  }

  /** Exactly once: if every handler succeeds and its ack lands before the deadline, no handler
      is called twice on a job, an acknowledged job had exactly one call, and while no worker
      is busy the jobs that had a call are the acknowledged ones. */
  lemma HandledExactlyOnce(ss: seq<State>, steps: seq<Step>, n: nat, id: Id)
    requires IsRun(ss, steps) && n < |ss| && id in ss[n].enqueued
    requires forall i :: 0 <= i < |steps| ==> Enabled(ss[i], steps[i]) && Timely(ss[i], steps[i])
    ensures Calls(ss[n].calls, id) <= 1
    ensures id in ss[n].acked ==> Calls(ss[n].calls, id) == 1
    ensures (forall w :: WorkerOf(ss[n], w).Idle?) ==> Calls(ss[n].calls, id) == if id in ss[n].acked then 1 else 0
  {
    TimelyRun(ss, steps, n);
    var s := ss[n];
    if id !in s.acked {
      assert id in s.enqueued - s.acked && InQueue(s.jobs, id);
      var i :| 0 <= i < |s.jobs| && s.jobs[i].id == id;
      assert OnTime(s, s.jobs[i]);
    }
  }
}
