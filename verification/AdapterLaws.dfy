/** The remote policy's adapter, seen from outside: which calls it may lose, that what it accepted can
    always be delivered, that a flush takes effect once, and what a late batch still does. */
module AdapterLaws {
  import opened Entries
  import opened Policies
  import opened PolicyAdapter

  // ---- what may get lost ----------------------------------------------------------------------------

  /** With room in the channel every hook call with a valid id can be accepted. A hit gets lost only when
      4096 elements wait already, an insert or a delete only by waiting in vain or because of Close. */
  lemma LossesMean(ss: seq<State>, steps: seq<Step>, n: nat, e: Event)
    requires IsRun(ss, steps) && n < |steps|
    ensures |ss[n].ch| < 4096 && !e.FlushAll? && ValidId(e.id) ==> Enabled(ss[n], Accept(e))
    ensures steps[n] == DropFull(e) ==> e.Hit? && |ss[n].ch| == 4096
    ensures steps[n] == DropTimeout(e) ==> e.Insert? || e.Delete?
    ensures steps[n] == Abandon(e) ==> (e.Insert? || e.Delete?) && ss[n].stopped
    ensures |ss[n + 1].accepted| > |ss[n].accepted| <==> steps[n].Accept?
    ensures ss[n + 1].dropped > ss[n].dropped <==> steps[n].DropFull? || steps[n].DropTimeout?
  {
    if steps[n].Accept? || steps[n].DropFull? || steps[n].DropTimeout? {} else { OthersLoseNothing(ss[n], steps[n]); }
  }

  lemma OthersLoseNothing(s: State, step: Step)
    requires Enabled(s, step) && !step.Accept? && !step.DropFull? && !step.DropTimeout?
    ensures Next(s, step).accepted == s.accepted && Next(s, step).dropped == s.dropped
  {}

  // ---- everything accepted can be delivered -------------------------------------------------------------

  ghost predicate GoesOn(ss: seq<State>, steps: seq<Step>, tt: seq<State>, more: seq<Step>) {
    && IsRun(tt, more) && |ss| <= |tt| && |steps| <= |more| && tt[..|ss|] == ss && more[..|steps|] == steps
    && forall i :: |steps| <= i < |more| ==> IsSender(more[i])
  }

  /** A step of the sender, whose posts work. */
  predicate IsSender(step: Step) {
    step in {TakeFirst, TakeMore, EndCollect, Post(PostOk), CloseBarriers, SeeStop, DrainOne, DrainEnd}
  }

  lemma OneStepMore(ss: seq<State>, steps: seq<Step>, tt: seq<State>, more: seq<Step>, step: Step)
    returns (uu: seq<State>, evenMore: seq<Step>)
    requires GoesOn(ss, steps, tt, more) && Enabled(tt[|more|], step) && IsSender(step)
    ensures GoesOn(ss, steps, uu, evenMore)
    ensures uu[|evenMore|] == Next(tt[|more|], step)
  {
    uu, evenMore := tt + [Next(tt[|more|], step)], more + [step];
    forall i | 0 <= i < |evenMore| ensures Enabled(uu[i], evenMore[i]) && uu[i + 1] == Next(uu[i], evenMore[i]) {
      assert i < |more| ==> uu[i] == tt[i] && uu[i + 1] == tt[i + 1] && evenMore[i] == more[i];
    }
    assert uu[0] == tt[0] && uu[..|ss|] == tt[..|ss|] && evenMore[..|steps|] == more[..|steps|];
  }

  /** The step the sender takes next. */
  function SendersTurn(s: State): Step {
    match s.sender.phase
    case Waiting => if s.ch != [] then TakeFirst else SeeStop
    case Collecting => if |s.sender.batch| < 128 && s.ch != [] then TakeMore else EndCollect
    case Draining => if s.ch != [] then DrainOne else DrainEnd
    case Posting => Post(PostOk)
    case Closing => CloseBarriers
    case Exited => CloseBarriers
  }

  function Rank(phase: Phase): nat {
    match phase
    case Exited => 0
    case Waiting => 0
    case Closing => 1
    case Posting => 2
    case Collecting => 3
    case Draining => 3
  }

  ghost predicate AtRest(s: State) {
    s.sender.phase.Exited? || (s.sender.phase.Waiting? && s.ch == [] && !s.stopped)
  }

  /** Past its draining the sender leaves an empty channel behind. */
  ghost predicate Drained(s: State) {
    s.sender.exiting && !s.sender.phase.Draining? ==> s.ch == []
  }

  lemma SenderMoves(s: State)
    requires Inv(s) && !AtRest(s) && Drained(s)
    ensures IsSender(SendersTurn(s)) && Enabled(s, SendersTurn(s))
    ensures var t := Next(s, SendersTurn(s));
            && t.accepted == s.accepted && t.before == s.before && t.stopped == s.stopped && Drained(t)
            && (s.sender.exiting ==> t.sender.exiting)
            && (t.sender.exiting == s.sender.exiting ==>
                  |t.ch| < |s.ch| || (|t.ch| == |s.ch| && Rank(t.sender.phase) < Rank(s.sender.phase)))
  {}

  /** From every state of every run, unless the sender is already past its last look at the channel, its own
      steps alone, with posts that work, bring everything accepted to the plugin and close every
      barrier; it then waits, or, once Close has been called, has exited. */
  lemma EverythingCanBeDelivered(ss: seq<State>, steps: seq<Step>) returns (tt: seq<State>, more: seq<Step>)
    requires IsRun(ss, steps)
    requires ss[|steps|].sender.exiting ==> ss[|steps|].sender.phase.Draining?
    ensures GoesOn(ss, steps, tt, more)
    ensures var s, t := ss[|steps|], tt[|more|];
            && t.posted == t.accepted == s.accepted && t.ch == [] && t.sender.batch == []
            && (forall b :: b in s.before ==> b in t.sender.closed)
            && t.sender.phase == if s.stopped then Exited else Waiting
  {
    assert ss[..|ss|] == ss && steps[..|steps|] == steps;
    var s := ss[|steps|];
    tt, more := ss, steps;
    while !AtRest(tt[|more|])
      invariant GoesOn(ss, steps, tt, more) && Drained(tt[|more|])
      invariant tt[|more|].accepted == s.accepted && tt[|more|].before == s.before && tt[|more|].stopped == s.stopped
      decreases !tt[|more|].sender.exiting, |tt[|more|].ch|, Rank(tt[|more|].sender.phase)
    {
      RunKeepsInv(tt, more, |more|);
      var step := SendersTurn(tt[|more|]);
      SenderMoves(tt[|more|]);
      tt, more := OneStepMore(ss, steps, tt, more, step);
    }
    RunKeepsInv(tt, more, |more|);
    RestIsDelivered(tt[|more|]);
  }

  lemma RestIsDelivered(t: State)
    requires Inv(t) && AtRest(t) && Drained(t)
    ensures t.posted == t.accepted && t.ch == [] && t.sender.batch == []
    ensures forall b :: b in t.before ==> b in t.sender.closed
    ensures t.sender.phase == if t.stopped then Exited else Waiting
  {
    forall b | b in t.before ensures b in t.sender.closed { assert Placed(t, b); }
  }

  /** Close is remembered. */
  lemma {:induction false} StoppedForGood(ss: seq<State>, steps: seq<Step>, i: nat, n: nat)
    requires IsRun(ss, steps) && i < n < |ss| && steps[i] == Stop
    ensures ss[n].stopped
  {
    if n > i + 1 {
      StoppedForGood(ss, steps, i, n - 1);
      StaysStopped(ss[n - 1], steps[n - 1]);
    }
  }

  lemma StaysStopped(s: State, step: Step)
    requires Enabled(s, step) && s.stopped
    ensures Next(s, step).stopped
  {}

  // ---- flushes and late batches ------------------------------------------------------------------------------

  /** A flush that reaches the plugin leaves its policy empty. */
  lemma FlushEmpties(s: State, b: nat, synced: bool)
    requires Enabled(s, RemoteFlush(b, synced))
    ensures Run(Lru([]), Next(s, RemoteFlush(b, synced)).plugin.remote) == Lru([]).Flush()
  {
    var h := Next(s, RemoteFlush(b, synced)).plugin.remote;
    assert h == s.plugin.remote + [FlushAll] && h[..|h| - 1] == s.plugin.remote;
    RunKeepsLru([], s.plugin.remote);
  }

  /** Each call of Flush takes effect at most once. */
  lemma FlushOnce(ss: seq<State>, steps: seq<Step>, i: nat, n: nat)
    requires IsRun(ss, steps) && i < n < |steps| && steps[i].RemoteFlush? && steps[n].RemoteFlush?
    ensures steps[i].barrier != steps[n].barrier
  {
    FlushedForGood(ss, steps, i, n);
  }

  lemma {:induction false} FlushedForGood(ss: seq<State>, steps: seq<Step>, i: nat, n: nat)
    requires IsRun(ss, steps) && i < n < |ss| && steps[i].RemoteFlush?
    ensures steps[i].barrier in ss[n].plugin.flushed
  {
    if n > i + 1 {
      FlushedForGood(ss, steps, i, n - 1);
      StaysFlushed(ss[n - 1], steps[n - 1], steps[i].barrier);
    } else {
      FlushIsNoted(ss[i], steps[i]);
    }
  }

  lemma FlushIsNoted(s: State, step: Step)
    requires Enabled(s, step) && step.RemoteFlush?
    ensures step.barrier in Next(s, step).plugin.flushed
  {}

  lemma StaysFlushed(s: State, step: Step, b: nat)
    requires Enabled(s, step) && b in s.plugin.flushed
    ensures b in Next(s, step).plugin.flushed
  {}

  /** A batch whose post outlived its timeout may still be applied, in any later state in which it has
      not been yet, and then follows whatever the plugin has applied by then. */
  lemma LateBatchArrives(s: State, t: State, i: nat)
    requires s.sender.phase.Posting? && s.sender.batch != [] && i < |t.plugin.late|
    ensures var late := Next(s, Post(PostLate)).plugin.late;
            late == s.plugin.late + [Late(|s.posted|, s.sender.batch)]
    ensures Next(s, Post(PostLate)).plugin.remote == s.plugin.remote
    ensures Enabled(t, Arrive(i))
    ensures var u := Next(t, Arrive(i));
            && u.plugin.remote == t.plugin.remote + t.plugin.late[i].events
            && u.plugin.late == t.plugin.late[..i] + t.plugin.late[i + 1..]
  {}
}
