/** The write gate: cache updates hold it for reading, PauseWrites takes it for writing in
    a helper goroutine and hands it straight back if its caller has given up by then. */
module WriteGate {

  /** A call of PauseWrites and its helper goroutine. */
  datatype Pause =
    | Asking          // helper waits for the lock, caller waits for the helper
    | Locked          // helper has the lock, caller has not looked yet
    | Paused          // caller has returned with the resume function
    | GivenUp         // caller has returned an error, helper still waits
    | Stranded        // the lock was granted but nobody wants it
    | Released

  /** sync.RWMutex: a writer first keeps new readers out, then waits for the old ones. */
  datatype Writer = NoWriter | Draining(pause: nat) | Held(pause: nat)

  datatype State = State(
    updates: set<nat>,              // updates inside their critical section
    writer: Writer,
    pauses: map<nat, Pause>,
    acquired: multiset<nat>,        // history: Lock calls that returned, Unlock calls made
    released: multiset<nat>)

  datatype Step =
    | EnterUpdate(u: nat)
    | LeaveUpdate(u: nat)
    | CallPause(p: nat)
    | Announce(p: nat)              // Lock has shut new readers out
    | Grant(p: nat)                 // Lock returns
    | ReturnPaused(p: nat)          // select takes <-locked
    | ContextEnds(p: nat)           // select takes <-ctx.Done()
    | Resume(p: nat)
    | HandBack(p: nat)

  const START := State({}, NoWriter, map[], multiset{}, multiset{})

  predicate Is(s: State, p: nat, at: Pause) {
    p in s.pauses && s.pauses[p] == at
  }

  predicate Enabled(s: State, step: Step) {
    match step
    case EnterUpdate(u) => u !in s.updates && s.writer.NoWriter?
    case LeaveUpdate(u) => u in s.updates
    case CallPause(p) => p !in s.pauses
    case Announce(p) => (Is(s, p, Asking) || Is(s, p, GivenUp)) && s.writer.NoWriter?
    case Grant(p) => s.writer == Draining(p) && s.updates == {}
    case ReturnPaused(p) => Is(s, p, Locked)
    case ContextEnds(p) => Is(s, p, Asking) || Is(s, p, Locked)
    case Resume(p) => Is(s, p, Paused)
    case HandBack(p) => Is(s, p, Stranded)
  }

  function Next(s: State, step: Step): State {
    match step
    case EnterUpdate(u) => s.(updates := s.updates + {u})
    case LeaveUpdate(u) => s.(updates := s.updates - {u})
    case CallPause(p) => s.(pauses := s.pauses[p := Asking])
    case Announce(p) => s.(writer := Draining(p))
    case Grant(p) =>
      s.(writer := Held(p), acquired := s.acquired + multiset{p},
         pauses := s.pauses[p := if Is(s, p, GivenUp) then Stranded else Locked])
    case ReturnPaused(p) => s.(pauses := s.pauses[p := Paused])
    case ContextEnds(p) => s.(pauses := s.pauses[p := if Is(s, p, Locked) then Stranded else GivenUp])
    case Resume(p) => Unlock(s, p)
    case HandBack(p) => Unlock(s, p)
  }

  function Unlock(s: State, p: nat): State {
    s.(writer := NoWriter, released := s.released + multiset{p}, pauses := s.pauses[p := Released])
  }

  ghost predicate IsRun(ss: seq<State>, steps: seq<Step>) {
    && |ss| == |steps| + 1 && ss[0] == START
    && forall i :: 0 <= i < |steps| ==> Enabled(ss[i], steps[i]) && ss[i + 1] == Next(ss[i], steps[i])
  }

  predicate HasLock(at: Pause) {
    at.Locked? || at.Paused? || at.Stranded?
  }

  /** The mutex and the pauses agree on who holds it, and nobody updates meanwhile. */
  ghost predicate OneHolder(s: State) {
    && (forall p :: p in s.pauses && HasLock(s.pauses[p]) ==> s.writer == Held(p))
    && (s.writer.Held? ==> s.writer.pause in s.pauses && HasLock(s.pauses[s.writer.pause]) && s.updates == {})
    && (s.writer.Draining? ==> Is(s, s.writer.pause, Asking) || Is(s, s.writer.pause, GivenUp))
  }

  /** Acquisitions and releases, pause by pause. */
  ghost predicate Counted(s: State) {
    && (forall p :: s.acquired[p] == if p in s.pauses && (HasLock(s.pauses[p]) || s.pauses[p].Released?) then 1 else 0)
    && (forall p :: s.released[p] == if p in s.pauses && s.pauses[p].Released? then 1 else 0)
  }

  ghost predicate Inv(s: State) {
    OneHolder(s) && Counted(s)
  }

  lemma StepKeepsHolder(s: State, step: Step)
    requires OneHolder(s) && Enabled(s, step)
    ensures OneHolder(Next(s, step))
  {}

  lemma StepCounts(s: State, step: Step)
    requires Inv(s) && Enabled(s, step)
    ensures Counted(Next(s, step))
  {
    match step {
      case Grant(p) => GrantCounts(s, p);
      case Resume(p) => UnlockCounts(s, p);
      case HandBack(p) => UnlockCounts(s, p);
      case _ =>
    }
  }

  lemma GrantCounts(s: State, p: nat)
    requires Inv(s) && Enabled(s, Grant(p))
    ensures Counted(Next(s, Grant(p)))
  {}

  lemma UnlockCounts(s: State, p: nat)
    requires Inv(s) && (Is(s, p, Paused) || Is(s, p, Stranded))
    ensures Counted(Unlock(s, p))
  {}

  lemma StepKeepsInv(s: State, step: Step)
    requires Inv(s) && Enabled(s, step)
    ensures Inv(Next(s, step))
  {
    StepKeepsHolder(s, step);
    StepCounts(s, step);
  }

  lemma {:induction false} RunKeepsInv(ss: seq<State>, steps: seq<Step>, n: nat)
    requires IsRun(ss, steps) && n < |ss|
    ensures Inv(ss[n])
  {
    if n > 0 {
      RunKeepsInv(ss, steps, n - 1);
      StepKeepsInv(ss[n - 1], steps[n - 1]);
    }
  }

  /** From the moment PauseWrites has returned successfully until its resume function is
      called, no update is inside its critical section, no other pause is in force, and no
      update can enter. */
  lemma NoUpdateWhilePaused(ss: seq<State>, steps: seq<Step>, n: nat, p: nat)
    requires IsRun(ss, steps) && n < |ss| && Is(ss[n], p, Paused)
    ensures ss[n].updates == {}
    ensures forall q :: Is(ss[n], q, Paused) ==> q == p
    ensures forall u :: !Enabled(ss[n], EnterUpdate(u))
    ensures n < |steps| && steps[n] != Resume(p) ==> Is(ss[n + 1], p, Paused)
  {
    RunKeepsInv(ss, steps, n);
    if n < |steps| && steps[n] != Resume(p) { StaysPaused(ss[n], steps[n], p); }
  }

  lemma StaysPaused(s: State, step: Step, p: nat)
    requires Inv(s) && Enabled(s, step) && Is(s, p, Paused) && step != Resume(p)
    ensures Is(Next(s, step), p, Paused)
  {}

  /** Every acquisition is released at most once and only by its own pause; one that is
      not released yet is the current holder and can be: by resume, or by the hand-back
      of a pause whose caller gave up. */
  lemma ReleasedExactlyOnce(ss: seq<State>, steps: seq<Step>, n: nat, p: nat)
    requires IsRun(ss, steps) && n < |ss|
    ensures ss[n].released[p] <= ss[n].acquired[p] <= 1
    ensures ss[n].acquired[p] > ss[n].released[p] <==> ss[n].writer == Held(p)
    ensures ss[n].writer == Held(p) ==>
              || Enabled(ss[n], Resume(p))
              || Enabled(ss[n], HandBack(p))
              || (Enabled(ss[n], ReturnPaused(p)) && Enabled(Next(ss[n], ReturnPaused(p)), Resume(p)))
    ensures Is(ss[n], p, Released) ==> ss[n].released[p] == ss[n].acquired[p] == 1
  {
    RunKeepsInv(ss, steps, n);
  }

  /** Resume and the hand-back only ever unlock a gate that their own pause holds. */
  lemma UnlockIsOwn(ss: seq<State>, steps: seq<Step>, n: nat, p: nat)
    requires IsRun(ss, steps) && n < |steps| && (steps[n] == Resume(p) || steps[n] == HandBack(p))
    ensures ss[n].writer == Held(p) && ss[n + 1].writer == NoWriter
  {
    RunKeepsInv(ss, steps, n);
  }

  /** A pause waits only for the updates already inside: once announced, none is added, and
      when they have left the lock can be granted. */
  lemma PauseWaitsForInFlightOnly(ss: seq<State>, steps: seq<Step>, n: nat, p: nat)
    requires IsRun(ss, steps) && n < |steps| && ss[n].writer == Draining(p)
    ensures ss[n + 1].updates <= ss[n].updates
    ensures ss[n + 1].writer == if steps[n] == Grant(p) then Held(p) else Draining(p)
    ensures ss[n].updates == {} ==> Enabled(ss[n], Grant(p))
  {
    RunKeepsInv(ss, steps, n);
  }

  // ---- the same in terms of the calls alone ---------------------------------------------------------

  /** From its entry on, and until it leaves, an update is inside. */
  lemma {:induction false} InsideUntilItLeaves(ss: seq<State>, steps: seq<Step>, i: nat, n: nat, u: nat)
    requires IsRun(ss, steps) && i < n < |ss| && steps[i] == EnterUpdate(u)
    requires forall k :: i < k < n ==> steps[k] != LeaveUpdate(u)
    ensures u in ss[n].updates
  {
    if n > i + 1 { InsideUntilItLeaves(ss, steps, i, n - 1, u); }
  }

  /** Once it has left it is outside, until it enters again. */
  lemma {:induction false} OutsideOnceLeft(ss: seq<State>, steps: seq<Step>, i: nat, n: nat, u: nat)
    requires IsRun(ss, steps) && i < n < |ss| && steps[i] == LeaveUpdate(u)
    requires forall k :: i < k < n ==> steps[k] != EnterUpdate(u)
    ensures u !in ss[n].updates
  {
    if n > i + 1 { OutsideOnceLeft(ss, steps, i, n - 1, u); }
  }

  /** Between the entry and the exit of an update no PauseWrites returns successfully; and between its
      successful return and the call of its resume function no update enters, and none is inside. */
  lemma PauseAndUpdateExclude(ss: seq<State>, steps: seq<Step>, i: nat, n: nat)
    requires IsRun(ss, steps) && i < n < |steps|
    ensures forall u, p :: steps[i] == EnterUpdate(u) && (forall k :: i < k < n ==> steps[k] != LeaveUpdate(u)) ==>
              steps[n] != ReturnPaused(p)
    ensures forall p, u :: steps[i] == ReturnPaused(p) && (forall k :: i < k < n ==> steps[k] != Resume(p)) ==>
              steps[n] != EnterUpdate(u) && steps[n] != LeaveUpdate(u)
  {
    RunKeepsInv(ss, steps, n);
    forall u, p | steps[i] == EnterUpdate(u) && (forall k :: i < k < n ==> steps[k] != LeaveUpdate(u))
      ensures steps[n] != ReturnPaused(p)
    {
      InsideUntilItLeaves(ss, steps, i, n, u);
    }
    forall p, u | steps[i] == ReturnPaused(p) && (forall k :: i < k < n ==> steps[k] != Resume(p))
      ensures steps[n] != EnterUpdate(u) && steps[n] != LeaveUpdate(u)
    {
      PausedUntilResumed(ss, steps, i, n, p);
    }
  }

  lemma {:induction false} PausedUntilResumed(ss: seq<State>, steps: seq<Step>, i: nat, n: nat, p: nat)
    requires IsRun(ss, steps) && i < n < |ss| && steps[i] == ReturnPaused(p)
    requires forall k :: i < k < n ==> steps[k] != Resume(p)
    ensures Is(ss[n], p, Paused)
  {
    if n > i + 1 {
      PausedUntilResumed(ss, steps, i, n - 1, p);
      RunKeepsInv(ss, steps, n - 1);
      StaysPaused(ss[n - 1], steps[n - 1], p);
    }
  }

  /** Whoever has given up never gets the gate. */
  lemma {:induction false} GivenUpForGood(ss: seq<State>, steps: seq<Step>, i: nat, n: nat, p: nat)
    requires IsRun(ss, steps) && i < n < |ss| && steps[i] == ContextEnds(p)
    ensures Is(ss[n], p, GivenUp) || Is(ss[n], p, Stranded) || Is(ss[n], p, Released)
  {
    if n > i + 1 {
      GivenUpForGood(ss, steps, i, n - 1, p);
      RunKeepsInv(ss, steps, n - 1);
      StaysGivenUp(ss[n - 1], steps[n - 1], p);
    }
  }

  lemma StaysGivenUp(s: State, step: Step, p: nat)
    requires Inv(s) && Enabled(s, step) && (Is(s, p, GivenUp) || Is(s, p, Stranded) || Is(s, p, Released))
    ensures var t := Next(s, step); Is(t, p, GivenUp) || Is(t, p, Stranded) || Is(t, p, Released)
  {}

  // ---- the gate can always be opened again, and be taken -----------------------------------------------

  ghost predicate GoesOn(ss: seq<State>, steps: seq<Step>, tt: seq<State>, more: seq<Step>) {
    && IsRun(tt, more) && |ss| <= |tt| && |steps| <= |more| && tt[..|ss|] == ss && more[..|steps|] == steps
  }

  lemma OneStepMore(ss: seq<State>, steps: seq<Step>, tt: seq<State>, more: seq<Step>, step: Step)
    returns (uu: seq<State>, evenMore: seq<Step>)
    requires GoesOn(ss, steps, tt, more) && Enabled(tt[|more|], step)
    ensures GoesOn(ss, steps, uu, evenMore) && evenMore == more + [step]
    ensures uu[|evenMore|] == Next(tt[|more|], step)
  {
    uu, evenMore := tt + [Next(tt[|more|], step)], more + [step];
    forall i | 0 <= i < |evenMore| ensures Enabled(uu[i], evenMore[i]) && uu[i + 1] == Next(uu[i], evenMore[i]) {
      assert i < |more| ==> uu[i] == tt[i] && uu[i + 1] == tt[i + 1] && evenMore[i] == more[i];
    }
    assert uu[0] == tt[0] && uu[..|ss|] == tt[..|ss|] && evenMore[..|steps|] == more[..|steps|];
  }

  /** The updates inside can leave. */
  lemma AllLeave(ss: seq<State>, steps: seq<Step>) returns (tt: seq<State>, more: seq<Step>)
    requires IsRun(ss, steps)
    ensures GoesOn(ss, steps, tt, more) && tt[|more|] == ss[|steps|].(updates := {})
  {
    assert ss[..|ss|] == ss && steps[..|steps|] == steps;
    tt, more := ss, steps;
    while tt[|more|].updates != {}
      invariant GoesOn(ss, steps, tt, more)
      invariant tt[|more|] == ss[|steps|].(updates := tt[|more|].updates)
      decreases |tt[|more|].updates|
    {
      var u :| u in tt[|more|].updates;
      tt, more := OneStepMore(ss, steps, tt, more, LeaveUpdate(u));
    }
  }

  /** From every state of every run things can go on, with no new call, so that the gate is open: nobody
      is inside, whoever was about to pause has paused and resumed, or has given up and the gate has
      been handed back. */
  lemma GateCanOpen(ss: seq<State>, steps: seq<Step>) returns (tt: seq<State>, more: seq<Step>)
    requires IsRun(ss, steps)
    ensures GoesOn(ss, steps, tt, more)
    ensures tt[|more|].updates == {} && tt[|more|].writer.NoWriter? && tt[|more|].pauses.Keys == ss[|steps|].pauses.Keys
    ensures forall u :: Enabled(tt[|more|], EnterUpdate(u))
  {
    tt, more := AllLeave(ss, steps);
    if tt[|more|].writer.Draining? {
      RunKeepsInv(tt, more, |more|);
      tt, more := OneStepMore(ss, steps, tt, more, Grant(tt[|more|].writer.pause));
    }
    if tt[|more|].writer.Held? {
      tt, more := HolderLetsGo(ss, steps, tt, more);
    }
  }

  lemma HolderLetsGo(ss: seq<State>, steps: seq<Step>, tt: seq<State>, more: seq<Step>)
    returns (uu: seq<State>, evenMore: seq<Step>)
    requires GoesOn(ss, steps, tt, more) && tt[|more|].writer.Held?
    ensures GoesOn(ss, steps, uu, evenMore) && uu[|evenMore|].writer.NoWriter?
    ensures uu[|evenMore|].updates == tt[|more|].updates && uu[|evenMore|].pauses.Keys == tt[|more|].pauses.Keys
  {
    RunKeepsInv(tt, more, |more|);
    var p := tt[|more|].writer.pause;
    uu, evenMore := tt, more;
    if Is(tt[|more|], p, Stranded) {
      uu, evenMore := OneStepMore(ss, steps, uu, evenMore, HandBack(p));
    } else {
      if Is(tt[|more|], p, Locked) { uu, evenMore := OneStepMore(ss, steps, uu, evenMore, ReturnPaused(p)); }
      uu, evenMore := OneStepMore(ss, steps, uu, evenMore, Resume(p));
    }
  }

  /** And then a new call of PauseWrites can succeed. */
  lemma PauseCanSucceed(ss: seq<State>, steps: seq<Step>, p: nat) returns (tt: seq<State>, more: seq<Step>)
    requires IsRun(ss, steps) && p !in ss[|steps|].pauses
    ensures GoesOn(ss, steps, tt, more) && Is(tt[|more|], p, Paused) && tt[|more|].writer == Held(p)
  {
    tt, more := GateCanOpen(ss, steps);
    tt, more := OneStepMore(ss, steps, tt, more, CallPause(p));
    tt, more := OneStepMore(ss, steps, tt, more, Announce(p));
    tt, more := OneStepMore(ss, steps, tt, more, Grant(p));
    tt, more := OneStepMore(ss, steps, tt, more, ReturnPaused(p));
  }

  /** A caller that still waits can give up, whether or not its helper has the lock by then, and what the
      helper holds, or gets later on, can be handed back. */
  lemma GivingUpIsClean(ss: seq<State>, steps: seq<Step>, p: nat) returns (tt: seq<State>, more: seq<Step>)
    requires IsRun(ss, steps) && (Is(ss[|steps|], p, Asking) || Is(ss[|steps|], p, Locked))
    ensures GoesOn(ss, steps, tt, more) && |more| > |steps| && more[|steps|] == ContextEnds(p)
    ensures Is(tt[|more|], p, Released) && tt[|more|].writer.NoWriter? && tt[|more|].updates == {}
  {
    assert ss[..|ss|] == ss && steps[..|steps|] == steps;
    tt, more := OneStepMore(ss, steps, ss, steps, ContextEnds(p));
    var uu, evenMore := GateCanOpen(tt, more);
    GoesOnOn(ss, steps, tt, more, uu, evenMore);
    assert evenMore[|steps|] == evenMore[..|more|][|steps|] == ContextEnds(p);
    GivenUpForGood(uu, evenMore, |steps|, |evenMore|, p);
    RunKeepsInv(uu, evenMore, |evenMore|);
    tt, more := uu, evenMore;
    if Is(tt[|more|], p, GivenUp) {
      tt, more := OneStepMore(ss, steps, tt, more, Announce(p));
      tt, more := OneStepMore(ss, steps, tt, more, Grant(p));
      tt, more := OneStepMore(ss, steps, tt, more, HandBack(p));
    }
  }

  lemma GoesOnOn(ss: seq<State>, steps: seq<Step>, tt: seq<State>, more: seq<Step>, uu: seq<State>,
                 evenMore: seq<Step>)
    requires GoesOn(ss, steps, tt, more) && GoesOn(tt, more, uu, evenMore)
    ensures GoesOn(ss, steps, uu, evenMore)
  {
    assert uu[..|ss|] == uu[..|tt|][..|ss|] && evenMore[..|steps|] == evenMore[..|more|][..|steps|];
  }
}
