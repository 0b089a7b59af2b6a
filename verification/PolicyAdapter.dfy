/** The remote eviction policy: events go through a bounded channel to one background
    sender that posts them in batches; Victim and Flush first push a barrier through the
    same channel. The adapter is a state machine over the atomic steps of the callers,
    the sender and the plugin, taken in any order. */
module PolicyAdapter {
  import opened Entries
  import opened Policies
  import opened PolicyObjects

  const EVENT_BUFFER := 4096
  const MAX_BATCH := 128

  datatype Queued = Ev(event: Event) | Barrier(barrier: nat)

  datatype Phase = Waiting | Collecting | Draining | Posting | Closing | Exited

  /** A flush the plugin carried out: how many events had been accepted when it was called, and
      when it was carried out. */
  datatype Mark = Mark(earliest: nat, latest: nat)

  /** A batch is applied and confirmed; refused; applied with its reply lost; or it is still
      under way when the sender gives up on it, to be applied later or never. */
  datatype PostResult = PostOk | PostRejected | PostUnconfirmed | PostLate

  /** A batch under way: the events posted before it, and its own. */
  datatype Late = Late(from: nat, events: seq<Event>)

  /** The plugin, and batches on their way to it. */
  datatype Plugin = Plugin(
    remote: seq<Event>,       // what it applied, flushes included
    applied: seq<nat>,        // which of the posted events those were
    disordered: bool,         // a batch was applied out of its turn
    late: seq<Late>,          // batches under way that the sender has given up on
    flushed: set<nat>,        // flush calls it has carried out
    marks: seq<Mark>,         // the same in order
    unsynced: nat)            // of those, how many had not seen their barrier closed

  /** The background sender: its local batch and barriers. */
  datatype Sender = Sender(
    batch: seq<Event>,
    barriers: seq<nat>,
    phase: Phase,
    exiting: bool,            // it has seen Close
    closed: set<nat>)         // barriers it has closed

  datatype State = State(
    ch: seq<Queued>,          // the bounded channel
    sender: Sender,
    plugin: Plugin,
    stopped: bool,            // Close has been called
    dropped: nat,             // counters reported by Health
    failed: nat,
    // history
    offered: seq<Event>,      // hook calls with a valid id that have returned
    accepted: seq<Event>,     // events put into the channel
    abandoned: nat,           // blocked calls that gave up because of Close
    posted: seq<Event>,       // events handed to POST /v1/events
    before: map<nat, nat>,    // barrier -> events accepted before it was pushed
    begun: map<nat, nat>,     // flush call, named by its barrier -> events accepted when it began
    acceptedAtStop: nat,      // events accepted when Close was called
    pushedAtStop: set<nat>)   // barriers pushed by then

  const START :=
    State([], Sender([], [], Waiting, false, {}), Plugin([], [], false, [], {}, [], 0), false, 0, 0,
          [], [], 0, [], map[], map[], 0, {})

  datatype Step =
    | Accept(event: Event)           // a hook call finds room
    | DropFull(event: Event)         // a hit finds the buffer full
    | DropTimeout(event: Event)      // an insert or delete waited in vain
    | Abandon(event: Event)          // an insert or delete was waiting when Close came
    | PushBarrier(barrier: nat)
    | TakeFirst
    | TakeMore
    | EndCollect
    | Post(result: PostResult)
    | Arrive(i: nat)                 // a late batch is applied after all
    | CloseBarriers
    | Stop
    | SeeStop
    | DrainOne
    | DrainEnd
    | BeginFlush(barrier: nat)       // Flush is called; it pushes this barrier next
    | RemoteFlush(barrier: nat, synced: bool)  // its POST /v1/flush reaches the plugin

  predicate IsHook(e: Event) {
    !e.FlushAll? && ValidId(e.id)
  }

  /** `add`: events go to the batch, barriers to the list of barriers. */
  function Add(w: Sender, q: Queued): Sender {
    match q
    case Ev(e) => w.(batch := w.batch + [e])
    case Barrier(b) => w.(barriers := w.barriers + [b])
  }

  /** The sender takes the next element of the channel. */
  function Take(s: State, phase: Phase): State
    requires s.ch != []
  {
    s.(ch := s.ch[1..], sender := Add(s.sender, s.ch[0]).(phase := phase))
  }

  function To(s: State, phase: Phase): State {
    s.(sender := s.sender.(phase := phase))
  }

  predicate Enabled(s: State, step: Step) {
    match step
    case Accept(e) => IsHook(e) && |s.ch| < EVENT_BUFFER
    case DropFull(e) => IsHook(e) && e.Hit? && |s.ch| == EVENT_BUFFER
    case DropTimeout(e) => IsHook(e) && !e.Hit?
    case Abandon(e) => IsHook(e) && !e.Hit? && s.stopped
    case PushBarrier(b) => |s.ch| < EVENT_BUFFER && b !in s.before
    case TakeFirst => s.sender.phase.Waiting? && s.ch != []
    case TakeMore => s.sender.phase.Collecting? && |s.sender.batch| < MAX_BATCH && s.ch != []
    case EndCollect => s.sender.phase.Collecting? && (|s.sender.batch| >= MAX_BATCH || s.ch == [])
    case Post(_) => s.sender.phase.Posting?
    case Arrive(i) => i < |s.plugin.late|
    case CloseBarriers => s.sender.phase.Closing?
    case Stop => !s.stopped
    case SeeStop => s.sender.phase.Waiting? && s.stopped
    case DrainOne => s.sender.phase.Draining? && s.ch != []
    case DrainEnd => s.sender.phase.Draining? && s.ch == []
    case BeginFlush(b) => b !in s.begun && b !in s.before
    // the flush is posted even if waiting for the barrier timed out
    case RemoteFlush(b, synced) => b in s.begun && b !in s.plugin.flushed && (synced ==> b in s.sender.closed)
  }

  /** The plugin applies a batch; it is its turn if all events posted before it, and no others,
      have been applied. */
  function Apply(p: Plugin, b: Late): Plugin {
    p.(remote := p.remote + b.events,
       applied := p.applied + seq(|b.events|, i => b.from + i),
       disordered := p.disordered || b.from != |p.applied|)
  }

  /** What becomes of the batch that is posted. */
  function Posted(p: Plugin, b: Late, result: PostResult): Plugin {
    match result
    case PostRejected => p
    case PostLate => p.(late := p.late + [b])
    case _ => Apply(p, b)
  }

  /** A late batch gets through. */
  function Arrived(p: Plugin, i: nat): Plugin
    requires i < |p.late|
  {
    Apply(p, p.late[i]).(late := p.late[..i] + p.late[i + 1..])
  }

  function Flushed(p: Plugin, b: nat, mark: Mark, synced: bool): Plugin {
    p.(remote := p.remote + [FlushAll], flushed := p.flushed + {b}, marks := p.marks + [mark],
       unsynced := if synced then p.unsynced else p.unsynced + 1)
  }

  function Next(s: State, step: Step): State
    requires Enabled(s, step)
  {
    match step
    case Accept(e) => s.(ch := s.ch + [Ev(e)], accepted := s.accepted + [e], offered := s.offered + [e])
    case DropFull(e) => s.(dropped := s.dropped + 1, offered := s.offered + [e])
    case DropTimeout(e) => s.(dropped := s.dropped + 1, offered := s.offered + [e])
    case Abandon(e) => s.(abandoned := s.abandoned + 1, offered := s.offered + [e])
    case PushBarrier(b) => s.(ch := s.ch + [Barrier(b)], before := s.before[b := |s.accepted|])
    case TakeFirst => Take(s, Collecting)
    // deliver up to the barrier promptly
    case TakeMore => Take(s, if s.ch[0].Barrier? then Posting else Collecting)
    case EndCollect => To(s, Posting)
    case Post(result) =>
      if s.sender.batch == [] then To(s, Closing)
      else
        s.(sender := s.sender.(phase := Closing, batch := []), posted := s.posted + s.sender.batch,
           plugin := Posted(s.plugin, Late(|s.posted|, s.sender.batch), result),
           failed := if result.PostOk? then s.failed else s.failed + |s.sender.batch|)
    case Arrive(i) => s.(plugin := Arrived(s.plugin, i))
    case CloseBarriers =>
      s.(sender := s.sender.(phase := if s.sender.exiting then Exited else Waiting, barriers := [],
                             closed := s.sender.closed + set b | b in s.sender.barriers))
    case Stop => s.(stopped := true, acceptedAtStop := |s.accepted|, pushedAtStop := s.before.Keys)
    case SeeStop => s.(sender := s.sender.(phase := Draining, exiting := true))
    case DrainOne => Take(s, Draining)
    case DrainEnd => To(s, Posting)
    case BeginFlush(b) => s.(begun := s.begun[b := |s.accepted|])
    case RemoteFlush(b, synced) =>
      s.(plugin := Flushed(s.plugin, b, Mark(s.begun[b], |s.accepted|), synced))
  }

  ghost predicate IsRun(ss: seq<State>, steps: seq<Step>) {
    && |ss| == |steps| + 1 && ss[0] == START
    && forall i :: 0 <= i < |steps| ==> Enabled(ss[i], steps[i]) && ss[i + 1] == Next(ss[i], steps[i])
  }

  // ---- the invariant -------------------------------------------------------------------

  /** The events waiting in the channel. */
  function Events(ch: seq<Queued>): seq<Event> {
    if ch == [] then []
    else (match ch[0] case Ev(e) => [e] case Barrier(_) => []) + Events(ch[1..])
  }

  /** The remote history without its flushes. */
  function Hooks(h: seq<Event>): seq<Event> {
    if h == [] then []
    else Hooks(h[..|h| - 1]) + if h[|h| - 1].FlushAll? then [] else [h[|h| - 1]]
  }

  /** After how many hook calls each flush of the history stands. */
  function FlushPoints(h: seq<Event>): seq<nat> {
    if h == [] then []
    else FlushPoints(h[..|h| - 1]) + if h[|h| - 1].FlushAll? then [|Hooks(h[..|h| - 1])|] else []
  }

  /** Every barrier in `ch` follows exactly the events accepted before it, `n` of which
      have already left the channel. */
  predicate BarriersInPlace(ch: seq<Queued>, n: nat, before: map<nat, nat>) {
    ch == [] ||
    match ch[0]
    case Ev(_) => BarriersInPlace(ch[1..], n + 1, before)
    case Barrier(b) => b in before && before[b] == n && BarriersInPlace(ch[1..], n, before)
  }

  ghost predicate NoFlush(h: seq<Event>) {
    forall i :: 0 <= i < |h| ==> !h[i].FlushAll?
  }

  /** Accepted events are posted, batched or waiting, in order, once each. */
  ghost predicate Conserved(s: State) {
    && s.accepted == s.posted + s.sender.batch + Events(s.ch)
    && NoFlush(s.accepted)
    && BarriersInPlace(s.ch, |s.posted| + |s.sender.batch|, s.before)
  }

  ghost predicate BarriersBehind(s: State) {
    && (forall b :: b in s.sender.barriers ==> b in s.before && s.before[b] <= |s.posted| + |s.sender.batch|)
    && (forall b :: b in s.sender.closed ==> b in s.before && s.before[b] <= |s.posted|)
    && (s.sender.phase.Waiting? || s.sender.phase.Exited? ==> s.sender.batch == [] && s.sender.barriers == [])
    && (s.sender.phase.Closing? ==> s.sender.batch == [])
    && |s.ch| <= EVENT_BUFFER
    && (!s.sender.exiting ==> |s.sender.batch| <= MAX_BATCH && |s.sender.barriers| <= 2)
    && (s.sender.phase.Collecting? ==> |s.sender.barriers| <= 1)
  }

  ghost predicate Counted(s: State) {
    && |s.offered| == |s.accepted| + s.dropped + s.abandoned
    && (s.dropped + s.abandoned == 0 ==> s.offered == s.accepted)
    && (!s.stopped ==> s.abandoned == 0)
  }

  ghost predicate IsPostedBatch(posted: seq<Event>, b: Late) {
    && b.events != [] && NoFlush(b.events) && b.from + |b.events| <= |posted|
    && posted[b.from..b.from + |b.events|] == b.events
  }

  /** The first `n` posted events, by position. */
  function UpTo(n: nat): seq<nat> {
    seq(n, i => i)
  }

  /** As long as every batch is applied in its turn, the plugin has a prefix of what was posted;
      a batch out of its turn shows for good. */
  ghost predicate OrderKept(p: Plugin, posted: seq<Event>) {
    && |Hooks(p.remote)| == |p.applied|
    && (!p.disordered ==> Hooks(p.remote) <= posted && p.applied == UpTo(|p.applied|))
    && (p.disordered ==> OutOfPlace(p.applied))
  }

  ghost predicate OutOfPlace(applied: seq<nat>) {
    exists k :: 0 <= k < |applied| && applied[k] != k
  }

  ghost predicate LateKept(late: seq<Late>, posted: seq<Event>) {
    forall i :: 0 <= i < |late| ==> IsPostedBatch(posted, late[i])
  }

  /** If no post failed, the plugin has applied everything posted. */
  ghost predicate AppliedKept(p: Plugin, posted: seq<Event>, failed: nat) {
    && OrderKept(p, posted) && LateKept(p.late, posted)
    && (failed == 0 ==> p.late == [] && !p.disordered && |p.applied| == |posted|)
  }

  ghost predicate ShuttingDown(s: State) {
    && (s.sender.exiting ==> s.stopped) && (s.sender.phase.Draining? || s.sender.phase.Exited? ==> s.sender.exiting)
    && (s.stopped ==> s.acceptedAtStop <= |s.accepted|)
    && (s.sender.exiting && !s.sender.phase.Draining? ==> s.acceptedAtStop <= |s.posted| + |s.sender.batch|)
    && (s.sender.exiting ==> !s.sender.phase.Waiting? && !s.sender.phase.Collecting?)
  }

  /** A barrier is closed, held by the sender, or still in the channel. */
  ghost predicate Placed(s: State, b: nat) {
    b in s.sender.closed || b in s.sender.barriers || Barrier(b) in s.ch
  }

  /** No barrier gets lost, and past its draining the sender holds all pushed before Close. */
  ghost predicate BarriersFound(s: State) {
    && (forall b :: b in s.before ==> Placed(s, b))
    && (s.stopped ==> s.pushedAtStop <= s.before.Keys)
    && (s.sender.exiting && !s.sender.phase.Draining? ==>
          forall b :: b in s.pushedAtStop ==> b in s.sender.closed || b in s.sender.barriers)
  }

  /** Each flush stands in the remote history after all events accepted when it was called. */
  ghost predicate FlushesPlaced(s: State) {
    && (forall b :: b in s.begun ==> s.begun[b] <= |s.accepted| && (b in s.before ==> s.begun[b] <= s.before[b]))
    && MarksKept(s.plugin, s.failed)
  }

  ghost predicate MarksKept(p: Plugin, failed: nat) {
    var points := FlushPoints(p.remote);
    && |points| == |p.marks|
    && (failed == 0 && p.unsynced == 0 ==>
          forall j :: 0 <= j < |points| ==> p.marks[j].earliest <= points[j] <= p.marks[j].latest)
  }

  ghost predicate Inv(s: State) {
    && Conserved(s) && BarriersBehind(s) && Counted(s) && AppliedKept(s.plugin, s.posted, s.failed) && ShuttingDown(s)
    && BarriersFound(s) && FlushesPlaced(s)
  }

  lemma {:induction false} EventsAppend(ch: seq<Queued>, q: Queued)
    ensures Events(ch + [q]) == Events(ch) + Events([q])
  {
    if ch != [] {
      EventsAppend(ch[1..], q);
      assert (ch + [q])[1..] == ch[1..] + [q];
    } else {
      assert ch + [q] == [q];
    }
  }

  lemma {:induction false} PlaceAppend(ch: seq<Queued>, n: nat, before: map<nat, nat>, q: Queued,
                                              before': map<nat, nat>)
    requires BarriersInPlace(ch, n, before)
    requires forall b :: b in before ==> b in before' && before'[b] == before[b]
    requires q.Barrier? ==> q.barrier in before' && before'[q.barrier] == n + |Events(ch)|
    ensures BarriersInPlace(ch + [q], n, before')
  {
    if ch == [] {
      assert ch + [q] == [q];
    } else {
      assert (ch + [q])[1..] == ch[1..] + [q];
      PlaceAppend(ch[1..], if ch[0].Ev? then n + 1 else n, before, q, before');
    }
  }

  lemma {:induction false} HooksAppend(h: seq<Event>, g: seq<Event>)
    requires NoFlush(g)
    ensures Hooks(h + g) == Hooks(h) + g && FlushPoints(h + g) == FlushPoints(h)
  {
    if g == [] {
      assert h + g == h;
    } else {
      var k := |g| - 1;
      HooksAppend(h, g[..k]);
      SplitLast(h, g);
      assert Hooks(h + g) == (Hooks(h) + g[..k]) + [g[k]];
    }
  }

  lemma TakeConserves(s: State, phase: Phase)
    requires Conserved(s) && s.ch != []
    ensures Conserved(Take(s, phase))
    ensures s.ch[0].Barrier? ==>
              s.ch[0].barrier in s.before && s.before[s.ch[0].barrier] == |s.posted| + |s.sender.batch|
  {
    var t := Take(s, phase);
    if s.ch[0].Ev? {
      assert s.posted + s.sender.batch + Events(s.ch) == s.posted + t.sender.batch + Events(t.ch);
    } else {
      assert Events(s.ch) == Events(t.ch);
    }
  }

  lemma BatchHasNoFlush(s: State)
    requires Conserved(s)
    ensures NoFlush(s.sender.batch)
  {
    forall i | 0 <= i < |s.sender.batch| ensures !s.sender.batch[i].FlushAll? {
      assert s.accepted[|s.posted| + i] == s.sender.batch[i];
    }
  }

  lemma StepConserves(s: State, step: Step)
    requires Conserved(s) && Enabled(s, step)
    ensures Conserved(Next(s, step))
  {
    match step {
      case Accept(e) => AcceptConserves(s, e);
      case PushBarrier(b) => PushConserves(s, b);
      case TakeFirst => TakeConserves(s, Collecting);
      case TakeMore => TakeConserves(s, Next(s, step).sender.phase);
      case DrainOne => TakeConserves(s, Draining);
      case Post(result) => PostConserves(s, result);
      case _ => assert SameEvents(s, Next(s, step));
    }
  }

  /** Nothing that `Conserved` is about has moved. */
  predicate SameEvents(s: State, t: State) {
    && t.accepted == s.accepted && t.posted == s.posted && t.sender.batch == s.sender.batch
    && t.ch == s.ch && t.before == s.before
  }

  lemma AcceptConserves(s: State, e: Event)
    requires Conserved(s) && Enabled(s, Accept(e))
    ensures Conserved(Next(s, Accept(e)))
  {
    EventsAppend(s.ch, Ev(e));
    PlaceAppend(s.ch, |s.posted| + |s.sender.batch|, s.before, Ev(e), s.before);
    assert Events([Ev(e)]) == [e];
  }

  lemma PushConserves(s: State, b: nat)
    requires Conserved(s) && Enabled(s, PushBarrier(b))
    ensures Conserved(Next(s, PushBarrier(b)))
  {
    EventsAppend(s.ch, Barrier(b));
    PlaceAppend(s.ch, |s.posted| + |s.sender.batch|, s.before, Barrier(b), s.before[b := |s.accepted|]);
    assert Events([Barrier(b)]) == [];
  }

  lemma PostConserves(s: State, result: PostResult)
    requires Conserved(s) && Enabled(s, Post(result))
    ensures Conserved(Next(s, Post(result)))
  {
    assert s.posted + s.sender.batch + [] == s.posted + s.sender.batch;
  }

  lemma StepKeepsBarriers(s: State, step: Step)
    requires Conserved(s) && BarriersBehind(s) && Enabled(s, step) && ShuttingDown(s)
    ensures BarriersBehind(Next(s, step))
  {
    match step {
      case TakeFirst => TakeKeepsBarriers(s, Collecting);
      case TakeMore => TakeKeepsBarriers(s, Next(s, step).sender.phase);
      case DrainOne => TakeKeepsBarriers(s, Draining);
      case PushBarrier(b) => PushKeepsBarriers(s, b);
      case Post(result) => PostKeepsBarriers(s, result);
      case CloseBarriers => CloseKeepsBarriers(s);
      case EndCollect =>
      case SeeStop =>
      case DrainEnd =>
      case _ => OthersKeepBarriers(s, step);
    }
  }

  lemma OthersKeepBarriers(s: State, step: Step)
    requires BarriersBehind(s) && Enabled(s, step)
    requires step.Accept? || step.DropFull? || step.DropTimeout? || step.Abandon? || step.Stop? || step.Arrive?
             || step.BeginFlush? || step.RemoteFlush?
    ensures BarriersBehind(Next(s, step))
  {
    assert SameBarriers(s, Next(s, step));
  }

  /** Only the channel and the histories may have grown. */
  predicate SameBarriers(s: State, t: State) {
    t.sender == s.sender && t.before == s.before && t.posted == s.posted && |t.ch| <= EVENT_BUFFER
  }

  lemma TakeKeepsBarriers(s: State, phase: Phase)
    requires Conserved(s) && BarriersBehind(s) && s.ch != []
    ensures var t := Take(s, phase);
            && (forall b :: b in t.sender.barriers ==> b in t.before && t.before[b] <= |t.posted| + |t.sender.batch|)
            && |t.sender.batch| <= |s.sender.batch| + 1
  {
    TakeConserves(s, phase);
  }

  lemma PushKeepsBarriers(s: State, b: nat)
    requires Conserved(s) && BarriersBehind(s) && Enabled(s, PushBarrier(b))
    ensures BarriersBehind(Next(s, PushBarrier(b)))
  {}

  lemma PostKeepsBarriers(s: State, result: PostResult)
    requires BarriersBehind(s) && Enabled(s, Post(result))
    ensures BarriersBehind(Next(s, Post(result)))
  {
    assert |s.posted + s.sender.batch| == |s.posted| + |s.sender.batch|;
  }

  lemma CloseKeepsBarriers(s: State)
    requires BarriersBehind(s) && Enabled(s, CloseBarriers)
    ensures BarriersBehind(Next(s, CloseBarriers))
  {}

  lemma StepCounts(s: State, step: Step)
    requires Counted(s) && Enabled(s, step)
    ensures Counted(Next(s, step))
  {
    if step.Accept? {
      AcceptCounts(s, step.event);
    } else if step.DropFull? || step.DropTimeout? || step.Abandon? {
      LossCounts(s, Next(s, step));
    } else {
      OthersLeaveCounts(s, step);
      SameCounted(s, Next(s, step));
    }
  }

  /** Nothing that `Counted` is about has moved, except that Close may have been called. */
  predicate SameCounts(s: State, t: State) {
    && t.offered == s.offered && t.accepted == s.accepted
    && t.dropped == s.dropped && t.abandoned == s.abandoned && (s.stopped ==> t.stopped)
  }

  lemma OthersLeaveCounts(s: State, step: Step)
    requires Enabled(s, step) && !step.Accept? && !step.DropFull? && !step.DropTimeout? && !step.Abandon?
    ensures SameCounts(s, Next(s, step))
  {}

  lemma SameCounted(s: State, t: State)
    requires Counted(s) && SameCounts(s, t)
    ensures Counted(t)
  {}

  /** One more call has returned without its event being accepted. */
  lemma LossCounts(s: State, t: State)
    requires Counted(s) && |t.offered| == |s.offered| + 1
    requires t.accepted == s.accepted && t.stopped == s.stopped
    requires t.dropped + t.abandoned == s.dropped + s.abandoned + 1 && (t.abandoned > s.abandoned ==> s.stopped)
    ensures Counted(t)
  {}

  lemma AcceptCounts(s: State, e: Event)
    requires Counted(s) && Enabled(s, Accept(e))
    ensures Counted(Next(s, Accept(e)))
  {}

  lemma StepApplies(s: State, step: Step)
    requires Conserved(s) && AppliedKept(s.plugin, s.posted, s.failed) && Enabled(s, step)
    ensures var t := Next(s, step); AppliedKept(t.plugin, t.posted, t.failed)
  {
    if step.Post? {
      PostApplies(s, step.result);
    } else if step.Arrive? {
      ArriveApplies(s.plugin, s.posted, step.i);
    } else if step.RemoteFlush? {
      HooksStep(s.plugin.remote, FlushAll);
    } else {
      OthersLeavePlugin(s, step);
    }
  }

  lemma OthersLeavePlugin(s: State, step: Step)
    requires Enabled(s, step) && !step.Post? && !step.Arrive? && !step.RemoteFlush?
    ensures var t := Next(s, step); t.plugin == s.plugin && t.posted == s.posted && t.failed == s.failed
  {}

  /** One more batch has been applied. */
  lemma ApplyOne(p: Plugin, posted: seq<Event>, b: Late)
    requires OrderKept(p, posted) && IsPostedBatch(posted, b)
    ensures OrderKept(Apply(p, b), posted)
  {
    var q := Apply(p, b);
    HooksAppend(p.remote, b.events);
    if p.disordered {
      StaysOutOfPlace(p.applied, q.applied);
    } else if q.disordered {
      assert q.applied[|p.applied|] == b.from;
    } else {
      assert posted[..b.from] + b.events == posted[..b.from + |b.events|];
      assert Hooks(q.remote) == posted[..b.from + |b.events|];
    }
  }

  lemma StaysOutOfPlace(applied: seq<nat>, longer: seq<nat>)
    requires OutOfPlace(applied) && applied <= longer
    ensures OutOfPlace(longer)
  {
    var k :| 0 <= k < |applied| && applied[k] != k;
    assert longer[k] == applied[k];
  }

  /** Posting more leaves everything so far where it was. */
  lemma PostMore(p: Plugin, posted: seq<Event>, more: seq<Event>)
    requires OrderKept(p, posted) && LateKept(p.late, posted)
    ensures OrderKept(p, posted + more) && LateKept(p.late, posted + more)
    ensures more != [] && NoFlush(more) ==> IsPostedBatch(posted + more, Late(|posted|, more))
  {
    forall i | 0 <= i < |p.late| ensures IsPostedBatch(posted + more, p.late[i]) {
      var b := p.late[i];
      assert IsPostedBatch(posted, b);
      assert (posted + more)[b.from..b.from + |b.events|] == posted[b.from..b.from + |b.events|];
    }
  }

  lemma PostApplies(s: State, result: PostResult)
    requires Conserved(s) && AppliedKept(s.plugin, s.posted, s.failed) && Enabled(s, Post(result))
    ensures var t := Next(s, Post(result)); AppliedKept(t.plugin, t.posted, t.failed)
  {
    if s.sender.batch != [] {
      BatchHasNoFlush(s);
      PostMore(s.plugin, s.posted, s.sender.batch);
      if result.PostOk? || result.PostUnconfirmed? {
        ApplyOne(s.plugin, s.posted + s.sender.batch, Late(|s.posted|, s.sender.batch));
      }
    }
  }

  lemma ArriveApplies(p: Plugin, posted: seq<Event>, i: nat)
    requires OrderKept(p, posted) && LateKept(p.late, posted) && i < |p.late|
    ensures OrderKept(Arrived(p, i), posted) && LateKept(Arrived(p, i).late, posted)
  {
    ApplyOne(p, posted, p.late[i]);
    var late := Arrived(p, i).late;
    forall k | 0 <= k < |late| ensures IsPostedBatch(posted, late[k]) {
      assert late[k] == p.late[if k < i then k else k + 1];
    }
  }

  lemma StepFindsBarriers(s: State, step: Step)
    requires BarriersFound(s) && ShuttingDown(s) && Enabled(s, step)
    ensures BarriersFound(Next(s, step))
  {
    match step {
      case TakeFirst => TakeFindsBarriers(s, Next(s, step));
      case TakeMore => TakeFindsBarriers(s, Next(s, step));
      case DrainOne => TakeFindsBarriers(s, Next(s, step));
      case CloseBarriers => CloseFindsBarriers(s);
      case PushBarrier(b) => PushFindsBarriers(s, b);
      case Accept(e) =>
        forall b | b in s.before ensures Placed(Next(s, step), b) { assert Placed(s, b); }
      case DrainEnd =>
        forall b | b in s.pushedAtStop ensures b in s.sender.closed || b in s.sender.barriers { assert Placed(s, b); }
        forall b | b in s.before ensures Placed(Next(s, step), b) { assert Placed(s, b); }
      case _ =>
        forall b | b in s.before ensures Placed(Next(s, step), b) { assert Placed(s, b); }
    }
  }

  lemma PushFindsBarriers(s: State, b: nat)
    requires BarriersFound(s) && Enabled(s, PushBarrier(b))
    ensures BarriersFound(Next(s, PushBarrier(b)))
  {
    var t := Next(s, PushBarrier(b));
    assert t.ch[|s.ch|] == Barrier(b);
    forall c | c in t.before ensures Placed(t, c) {
      if c != b { assert Placed(s, c); }
    }
  }

  lemma TakeFindsBarriers(s: State, t: State)
    requires BarriersFound(s) && s.ch != [] && t.ch == s.ch[1..]
    requires t.sender.barriers == Add(s.sender, s.ch[0]).barriers && t.sender.closed == s.sender.closed
    requires t.before == s.before
    requires t.pushedAtStop == s.pushedAtStop && t.stopped == s.stopped && t.sender.exiting == s.sender.exiting
    requires t.sender.exiting && !t.sender.phase.Draining? ==> !s.sender.phase.Draining?
    ensures BarriersFound(t)
  {
    assert s.ch == [s.ch[0]] + s.ch[1..];
    forall b | b in t.before ensures Placed(t, b) { assert Placed(s, b); }
  }

  lemma CloseFindsBarriers(s: State)
    requires BarriersFound(s) && Enabled(s, CloseBarriers)
    ensures BarriersFound(Next(s, CloseBarriers))
  {
    forall b | b in s.before ensures Placed(Next(s, CloseBarriers), b) { assert Placed(s, b); }
  }

  lemma StepPlacesFlushes(s: State, step: Step)
    requires Conserved(s) && BarriersBehind(s) && AppliedKept(s.plugin, s.posted, s.failed)
    requires FlushesPlaced(s) && Enabled(s, step)
    ensures FlushesPlaced(Next(s, step))
  {
    StepKeepsNotes(s, step);
    if step.RemoteFlush? {
      FlushIsPlaced(s, step.barrier, step.synced);
    } else if step.Post? {
      BatchHasNoFlush(s);
      MarksStay(s.plugin, Next(s, step).plugin, s.sender.batch, s.failed, Next(s, step).failed);
    } else if step.Arrive? {
      assert IsPostedBatch(s.posted, s.plugin.late[step.i]);
      MarksStay(s.plugin, Next(s, step).plugin, s.plugin.late[step.i].events, s.failed, s.failed);
    } else {
      OthersLeavePlugin(s, step);
    }
  }

  /** Hook calls applied at the end leave the flushes where they are. */
  lemma MarksStay(p: Plugin, q: Plugin, more: seq<Event>, failed: nat, failed': nat)
    requires MarksKept(p, failed) && NoFlush(more) && failed <= failed'
    requires q.marks == p.marks && q.unsynced == p.unsynced && (q.remote == p.remote || q.remote == p.remote + more)
    ensures MarksKept(q, failed')
  {
    HooksAppend(p.remote, more);
  }

  /** Calls, barriers and accepted events are only ever added to. */
  lemma StepKeepsNotes(s: State, step: Step)
    requires FlushesPlaced(s) && Enabled(s, step)
    ensures var t := Next(s, step);
            forall b :: b in t.begun ==> t.begun[b] <= |t.accepted| && (b in t.before ==> t.begun[b] <= t.before[b])
  {}

  /** A flush whose barrier is closed stands after all that was accepted before it. */
  lemma FlushIsPlaced(s: State, b: nat, synced: bool)
    requires Conserved(s) && BarriersBehind(s) && AppliedKept(s.plugin, s.posted, s.failed)
    requires FlushesPlaced(s) && Enabled(s, RemoteFlush(b, synced))
    ensures MarksKept(Next(s, RemoteFlush(b, synced)).plugin, s.failed)
  {
    HooksStep(s.plugin.remote, FlushAll);
    assert |s.posted| <= |s.accepted|;
  }

  lemma StepKeepsShutdown(s: State, step: Step)
    requires Conserved(s) && ShuttingDown(s) && Enabled(s, step)
    ensures ShuttingDown(Next(s, step))
  {
    if step.DrainEnd? {
      assert |s.accepted| == |s.posted| + |s.sender.batch|;
    }
  }

  lemma StepKeepsInv(s: State, step: Step)
    requires Inv(s) && Enabled(s, step)
    ensures Inv(Next(s, step))
  {
    StepConserves(s, step);
    StepKeepsBarriers(s, step);
    StepCounts(s, step);
    StepApplies(s, step);
    StepKeepsShutdown(s, step);
    StepFindsBarriers(s, step);
    StepPlacesFlushes(s, step);
  }

  lemma {:induction false} RunKeepsInv(ss: seq<State>, steps: seq<Step>, n: nat)
    requires IsRun(ss, steps) && n < |ss|
    ensures Inv(ss[n])
  {
    if n > 0 {
      RunKeepsInv(ss, steps, n - 1);
      StepKeepsInv(ss[n - 1], steps[n - 1]);
    }
  }

  // ---- the results ---------------------------------------------------------------------------

  /** The events posted so far are exactly the first events accepted, in order, once each. */
  lemma PostedIsAcceptedPrefix(ss: seq<State>, steps: seq<Step>, n: nat)
    requires IsRun(ss, steps) && n < |ss|
    ensures ss[n].posted <= ss[n].accepted
    ensures ss[n].accepted == ss[n].posted + ss[n].sender.batch + Events(ss[n].ch)
  {
    RunKeepsInv(ss, steps, n);
  }

  /** syncEvents returning true: whatever was accepted before its barrier is posted. */
  lemma SyncMeansPosted(ss: seq<State>, steps: seq<Step>, n: nat, b: nat)
    requires IsRun(ss, steps) && n < |ss| && b in ss[n].sender.closed
    ensures b in ss[n].before && ss[n].before[b] <= |ss[n].posted| <= |ss[n].accepted|
  {
    RunKeepsInv(ss, steps, n);
  }

  /** The plugin has applied every posted event once and in order iff as many have been applied
      as were posted, and every batch in its turn; it then has exactly the history posted. If
      no post failed, that is so. */
  lemma RemoteCompleteIff(ss: seq<State>, steps: seq<Step>, n: nat)
    requires IsRun(ss, steps) && n < |ss|
    ensures var (p, posted) := (ss[n].plugin, ss[n].posted);
            && (p.applied == UpTo(|posted|) <==> |p.applied| == |posted| && !p.disordered)
            && (p.applied == UpTo(|posted|) ==> Hooks(p.remote) == posted)
            && (ss[n].failed == 0 ==> p.applied == UpTo(|posted|))
  {
    RunKeepsInv(ss, steps, n);
  }

  /** The positions are in order and none is past `n`. */
  ghost predicate InOrder(points: seq<nat>, n: nat) {
    && (forall i, j :: 0 <= i < j < |points| ==> points[i] <= points[j])
    && forall i :: 0 <= i < |points| ==> points[i] <= n
  }

  /** The history of the calls `hooks` with a flush after each of `points` many of them. */
  ghost function Weave(hooks: seq<Event>, points: seq<nat>): seq<Event>
    requires InOrder(points, |hooks|)
    decreases |points|
  {
    if points == [] then hooks
    else
      var k := points[|points| - 1];
      Weave(hooks[..k], points[..|points| - 1]) + [FlushAll] + hooks[k..]
  }

  lemma WeaveAppend(hooks: seq<Event>, points: seq<nat>, e: Event)
    requires InOrder(points, |hooks|)
    ensures Weave(hooks + [e], points) == Weave(hooks, points) + [e]
  {
    if points != [] {
      var k := points[|points| - 1];
      assert (hooks + [e])[..k] == hooks[..k] && (hooks + [e])[k..] == hooks[k..] + [e];
    }
  }

  /** Every history is its hook calls with its flushes woven in. */
  lemma {:induction false} Rewoven(h: seq<Event>)
    ensures InOrder(FlushPoints(h), |Hooks(h)|) && Weave(Hooks(h), FlushPoints(h)) == h
  {
    if h != [] {
      var g, e := h[..|h| - 1], h[|h| - 1];
      assert h == g + [e];
      Rewoven(g);
      HooksStep(g, e);
      if e.FlushAll? {
        WeaveFlush(Hooks(g), FlushPoints(g));
      } else {
        WeaveAppend(Hooks(g), FlushPoints(g), e);
        assert InOrder(FlushPoints(g), |Hooks(g)| + 1);
      }
    }
  }

  lemma HooksStep(g: seq<Event>, e: Event)
    ensures e.FlushAll? ==> Hooks(g + [e]) == Hooks(g) && FlushPoints(g + [e]) == FlushPoints(g) + [|Hooks(g)|]
    ensures !e.FlushAll? ==> Hooks(g + [e]) == Hooks(g) + [e] && FlushPoints(g + [e]) == FlushPoints(g)
  {
    assert (g + [e])[..|g|] == g;
  }

  lemma WeaveFlush(hooks: seq<Event>, points: seq<nat>)
    requires InOrder(points, |hooks|)
    ensures InOrder(points + [|hooks|], |hooks|)
    ensures Weave(hooks, points + [|hooks|]) == Weave(hooks, points) + [FlushAll]
  {
    assert (points + [|hooks|])[..|points|] == points;
    assert hooks[..|hooks|] == hooks && hooks[|hooks|..] == [];
  }

  /** After the history `h` the id `v` is cached, and every other one was touched later. */
  ghost predicate LeastRecent(h: seq<Event>, v: Id) {
    v in Live(h) && forall u :: u in Live(h) && u != v ==> LastTouch(h, v) < LastTouch(h, u)
  }

  /** What Victim sees after its barrier closed: with nothing dropped, failed or timed out, the
      plugin is in the state a local LRU reaches on the first `k` hook calls made, every call
      that returned before the barrier among them, with the flushes woven in: each after every
      call that returned before it was called, and before any made after it was carried out. The id
      it names is the one least recently touched in that history. */
  lemma VictimSeesEarlierEvents(ss: seq<State>, steps: seq<Step>, n: nat, b: nat) returns (k: nat, points: seq<nat>)
    requires IsRun(ss, steps) && n < |ss| && b in ss[n].sender.closed
    requires !ss[n].stopped && ss[n].dropped == 0 && ss[n].failed == 0 && ss[n].plugin.unsynced == 0
    ensures b in ss[n].before && ss[n].before[b] <= k <= |ss[n].offered| && InOrder(points, k)
    ensures |points| == |ss[n].plugin.marks|
    ensures forall j :: 0 <= j < |points| ==>
              ss[n].plugin.marks[j].earliest <= points[j] <= ss[n].plugin.marks[j].latest
    ensures ss[n].plugin.remote == Weave(ss[n].offered[..k], points)
    ensures forall v :: Run(Lru([]), ss[n].plugin.remote).Victim() == Some(v) <==>
              LeastRecent(Weave(ss[n].offered[..k], points), v)
  {
    RunKeepsInv(ss, steps, n);
    var s := ss[n];
    k, points := |s.posted|, FlushPoints(s.plugin.remote);
    assert s.offered == s.posted + (s.sender.batch + Events(s.ch));
    assert s.offered[..k] == s.posted;
    assert Hooks(s.plugin.remote) == s.posted;
    Rewoven(s.plugin.remote);
    forall v ensures Run(Lru([]), s.plugin.remote).Victim() == Some(v) <==> LeastRecent(s.plugin.remote, v) {
      LruVictimIsLeastRecentlyTouched(s.plugin.remote, v);
    }
  }

  /** What has been noted in `s` is still noted in `t`. */
  ghost predicate Remembers(s: State, t: State) {
    && (forall b :: b in s.before ==> b in t.before && t.before[b] == s.before[b])
    && (forall b :: b in s.begun ==> b in t.begun && t.begun[b] == s.begun[b])
    && s.accepted <= t.accepted
  }

  lemma StepRemembers(s: State, step: Step)
    requires Enabled(s, step)
    ensures Remembers(s, Next(s, step))
  {}

  lemma RunStepRemembers(ss: seq<State>, steps: seq<Step>, i: nat)
    requires IsRun(ss, steps) && i < |steps|
    ensures Remembers(ss[i], ss[i + 1])
  {
    StepRemembers(ss[i], steps[i]);
  }

  lemma {:induction false} AllRemember(ss: seq<State>, i: nat, n: nat)
    requires i <= n < |ss| && forall k :: 0 <= k < |ss| - 1 ==> Remembers(ss[k], ss[k + 1])
    ensures Remembers(ss[i], ss[n])
  {
    if i < n {
      AllRemember(ss, i, n - 1);
      assert Remembers(ss[n - 1], ss[n - 1 + 1]);
    }
  }

  lemma RunRemembers(ss: seq<State>, steps: seq<Step>, i: nat, n: nat)
    requires IsRun(ss, steps) && i <= n < |ss|
    ensures Remembers(ss[i], ss[n])
  {
    forall k | 0 <= k < |ss| - 1 ensures Remembers(ss[k], ss[k + 1]) { RunStepRemembers(ss, steps, k); }
    AllRemember(ss, i, n);
  }

  /** A flush call is noted with the events accepted when it began. */
  lemma FlushRemembers(ss: seq<State>, steps: seq<Step>, i: nat, n: nat, b: nat)
    requires IsRun(ss, steps) && i < |steps| && steps[i] == BeginFlush(b) && i < n < |ss|
    ensures b in ss[n].begun && ss[n].begun[b] == |ss[i].accepted|
    ensures ss[i].accepted <= ss[n].accepted
  {
    RunRemembers(ss, steps, i, i + 1);
    RunRemembers(ss, steps, i + 1, n);
  }

  /** A barrier is pushed after everything accepted so far, and never moves. */
  lemma BarrierRemembers(ss: seq<State>, steps: seq<Step>, i: nat, n: nat, b: nat)
    requires IsRun(ss, steps) && i < |steps| && steps[i] == PushBarrier(b) && i < n < |ss|
    ensures b in ss[n].before && ss[n].before[b] == |ss[i].accepted|
    ensures ss[i].accepted <= ss[n].accepted
  {
    RunRemembers(ss, steps, i, i + 1);
    RunRemembers(ss, steps, i + 1, n);
  }

  /** Close returns (the sender has exited) only after everything accepted before the call is
      posted and every barrier pushed before it is closed. */
  lemma CloseDelivers(ss: seq<State>, steps: seq<Step>, n: nat)
    requires IsRun(ss, steps) && n < |ss| && ss[n].sender.phase.Exited?
    ensures ss[n].stopped && ss[n].acceptedAtStop <= |ss[n].posted|
    ensures ss[n].pushedAtStop <= ss[n].sender.closed
    ensures ss[n].sender.barriers == [] && ss[n].sender.batch == []
  {
    RunKeepsInv(ss, steps, n);
  }

  /** Before it exits the sender always has a step of its own to take, unless it waits for
      work, and until Close is called it never holds more than one full batch. It stops to deliver
      at the second barrier, counting one that it started with. */
  lemma SenderProgress(ss: seq<State>, steps: seq<Step>, n: nat)
    requires IsRun(ss, steps) && n < |ss| && !ss[n].sender.phase.Exited?
    requires ss[n].sender.phase.Waiting? ==> ss[n].ch != [] || ss[n].stopped
    ensures exists step ::
              && step in {TakeFirst, TakeMore, EndCollect, Post(PostOk), CloseBarriers, SeeStop, DrainOne, DrainEnd}
              && Enabled(ss[n], step)
    ensures !ss[n].stopped ==> |ss[n].sender.batch| <= 128 && |ss[n].sender.barriers| <= 2
    ensures ss[n].sender.phase.Collecting? ==> |ss[n].sender.barriers| <= 1
    ensures |ss[n].ch| <= 4096
  {
    RunKeepsInv(ss, steps, n);
    var s := ss[n];
    match s.sender.phase {
      case Waiting => if s.ch != [] { assert Enabled(s, TakeFirst); } else { assert Enabled(s, SeeStop); }
      case Collecting =>
        if |s.sender.batch| < MAX_BATCH && s.ch != [] {
          assert Enabled(s, TakeMore);
        } else {
          assert Enabled(s, EndCollect);
        }
      case Draining => if s.ch != [] { assert Enabled(s, DrainOne); } else { assert Enabled(s, DrainEnd); }
      case Posting => assert Enabled(s, Post(PostOk));
      case Closing => assert Enabled(s, CloseBarriers);
    }
  }

  // ---- the plugin end --------------------------------------------------------------------------

  /** One event of a request body. */
  datatype WireEvent = WireEvent(op: string, id: Id)

  predicate WellFormed(e: WireEvent) {
    e.id != "" && e.op in {"hit", "insert", "delete"}
  }

  function Decode(e: WireEvent): Event
    requires WellFormed(e)
  {
    if e.op == "hit" then Hit(e.id) else if e.op == "insert" then Insert(e.id) else Delete(e.id)
  }

  /** What the adapter sends for a hook call (`OnHit`, `OnInsert` and `OnDelete`). */
  function Encode(e: Event): WireEvent
    requires IsHook(e)
  {
    match e
    case Hit(id) => WireEvent("hit", id)
    case Insert(id) => WireEvent("insert", id)
    case Delete(id) => WireEvent("delete", id)
  }

  function EncodeAll(es: seq<Event>): seq<WireEvent>
    requires forall e :: e in es ==> IsHook(e)
  {
    seq(|es|, i requires 0 <= i < |es| => assert es[i] in es; Encode(es[i]))
  }

  /** The plugin reads what the adapter sent: every batch is accepted and means the same events. */
  lemma SentIsRead(es: seq<Event>)
    requires forall e :: e in es ==> IsHook(e)
    ensures forall w :: w in EncodeAll(es) ==> WellFormed(w)
    ensures DecodeAll(EncodeAll(es)) == es
  {
    forall i | 0 <= i < |es| ensures WellFormed(EncodeAll(es)[i]) && Decode(EncodeAll(es)[i]) == es[i] {
      assert es[i] in es;
    }
  }

  /** What the last event of an accepted request does to the list: after an insert its id is in
      front, after a delete it is gone, a hit brings it to the front if it was there; all other
      ids stay, in the order they were in. */
  lemma LastEventShows(order: seq<Id>, events: seq<WireEvent>)
    requires NoDup(order) && events != [] && forall e :: e in events ==> WellFormed(e)
    ensures var n := |events| - 1;
            var last := events[n];
            var p, q := Run(Lru(order), DecodeAll(events[..n])), Run(Lru(order), DecodeAll(events));
            && p.Lru? && q.Lru? && p.Valid() && q.Valid()
            && Without(q.order, last.id) == Without(p.order, last.id)
            && (last.op == "insert" ==> q.order != [] && q.order[0] == last.id)
            && (last.op == "delete" ==> last.id !in q.order)
            && (last.op == "hit" && last.id in p.order ==> q.order != [] && q.order[0] == last.id)
            && (last.op == "hit" && last.id !in p.order ==> last.id !in q.order)
  {
    var n := |events| - 1;
    var last, p := events[n], Run(Lru(order), DecodeAll(events[..n]));
    assert DecodeAll(events)[..n] == DecodeAll(events[..n]);
    assert last in events;
    RunKeepsLru(order, DecodeAll(events[..n]));
    HooksKeepValid(p, Decode(last));
    WithoutMembers(p.order, last.id);
    assert ([last.id] + Without(p.order, last.id))[1..] == Without(p.order, last.id);
    WithoutMembers(Without(p.order, last.id), last.id);
  }

  lemma {:induction false} RunKeepsLru(order: seq<Id>, h: seq<Event>)
    requires NoDup(order)
    ensures Run(Lru(order), h).Lru? && Run(Lru(order), h).Valid()
  {
    if h != [] {
      RunKeepsLru(order, h[..|h| - 1]);
      HooksKeepValid(Run(Lru(order), h[..|h| - 1]), h[|h| - 1]);
    }
  }

  function DecodeAll(es: seq<WireEvent>): seq<Event>
    requires forall e :: e in es ==> WellFormed(e)
  {
    seq(|es|, i requires 0 <= i < |es| => Decode(es[i]))
  }

  /** The example LRU plugin: `POST /v1/events` over its list and map. */
  class RemoteLru {
    const list: LruPolicy

    constructor ()
      ensures fresh(list) && list.Valid() && list.Model() == Lru([])
    {
      list := new LruPolicy();
    }

    /** A request with one malformed event is refused and changes nothing; otherwise its
        events are applied in order. */
    method HandleEvents(events: seq<WireEvent>) returns (status: int)
      requires list.Valid()
      modifies list
      ensures list.Valid()
      ensures (forall e :: e in events ==> WellFormed(e)) ==>
                status == 200 && list.Model() == Run(old(list.Model()), DecodeAll(events))
      ensures !(forall e :: e in events ==> WellFormed(e)) ==>
                status == 400 && list.Model() == old(list.Model())
      ensures status == 200 || status == 400
      ensures status == 400 <==> exists e :: e in events && (e.id == "" || e.op !in {"hit", "insert", "delete"})
      ensures status == 200 && events != [] ==>
                var last := events[|events| - 1];
                && (last.op == "insert" ==> list.Model().order != [] && list.Model().order[0] == last.id)
                && (last.op == "delete" ==> last.id !in list.Model().Ids())
    {
      for i := 0 to |events|
        invariant forall k :: 0 <= k < i ==> WellFormed(events[k])
        invariant list.Valid() && list.Model() == old(list.Model())
      {
        if !WellFormed(events[i]) {
          return 400;
        }
      }
      ghost var order := list.Model().order;
      ApplyAll(events);
      if events != [] { LastEventShows(order, events); }
      return 200;
    }

    method HandleFlush()
      requires list.Valid()
      modifies list
      ensures list.Valid() && list.Model() == old(list.Model()).Apply(FlushAll)
    {
      list.Flush();
    }

    method ApplyAll(events: seq<WireEvent>)
      requires list.Valid() && forall e :: e in events ==> WellFormed(e)
      modifies list
      ensures list.Valid() && list.Model() == Run(old(list.Model()), DecodeAll(events))
    {
      ghost var p := list.Model();
      for i := 0 to |events|
        invariant list.Valid()
        invariant list.Model() == Run(p, DecodeAll(events)[..i])
      {
        var e := events[i];
        if e.op == "hit" {
          list.OnHit(e.id);
        } else if e.op == "insert" {
          list.OnInsert(e.id);
        } else {
          list.OnDelete(e.id);
        }
        RunStep(p, DecodeAll(events), i);
      }
      assert DecodeAll(events)[..|events|] == DecodeAll(events);
    }
  }

  lemma RunStep(p: Policy, h: seq<Event>, i: nat)
    requires i < |h|
    ensures Run(p, h[..i + 1]) == Run(p, h[..i]).Apply(h[i])
  {
    assert h[..i + 1][..i] == h[..i];
  }
}
