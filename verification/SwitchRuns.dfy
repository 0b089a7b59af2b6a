/** Runs of the plugin platform that end where its promises fail, one per finding: each starts
    with no plugins. Where the finding is an update that does not get recorded, the run ends
    just before it and the lemma takes that last step. */
module SwitchRuns {
  import opened Entries
  import opened Lifecycle
  import opened PluginSwitch

  const NO_FAULTS := Faults(false, false, false, Verdict(true), false, false, false, {})

  /** A switch in which nothing fails, for a plan that leaves the metric alone. */
  const CALM := Env(None, false, Proceed(true, false, false), NoExecFault, false, false, false,
                    StageFaults(false, false, false, false))

  ghost function Fresh(threshold: real): State {
    State(map[], map[], map[], map[], threshold, true)
  }

  /** One installed, verified plugin; then the same, active. */
  ghost function Ready(typ: PluginType, id: Id, threshold: real): State {
    Fresh(threshold).(recs := map[id := Record(typ, Verified, false, "", None, true, None)])
  }

  ghost function Serving(typ: PluginType, id: Id, was: real, conf: Option<real>, changed: bool): State
    requires Askable(typ, conf, changed)
  {
    State(map[id := Record(typ, Active, true, "", if changed then Some(was) else None, true, conf)],
          map[SlotOf(typ) := id], map[SlotOf(typ) := id], map[SlotOf(typ) := Adapter(id)],
          if changed then conf.value else was, true)
  }

  /** Only a vector store's plan sees the metric change, always for a plugin that is one, and
      then needs a threshold. */
  predicate Askable(typ: PluginType, conf: Option<real>, changed: bool) {
    && (typ == SimilarityMetric ==> changed)
    && (changed ==> SlotOf(typ) == VectorStoreSlot && conf.Some? && conf.value >= 0.0)
  }

  /** What an administrator has to confirm at least. */
  function Needed(typ: PluginType): Option<real> {
    if typ == SimilarityMetric then Some(0.0) else None
  }

  /** A run and the state it ends in. */
  ghost predicate Reaches(ss: seq<State>, ops: seq<Op>, s: State) {
    IsRun(ss, ops) && ss[|ops|] == s
  }

  lemma PipelineWorks(typ: PluginType, id: Id, threshold: real)
    requires id != ""
    ensures var s0, op := Fresh(threshold), InstallOp(id, typ, None);
            && Allowed(s0, op) && Allowed(Step(s0, op), PipelineOp(id, Endpoint, NO_FAULTS))
            && Step(Step(s0, op), PipelineOp(id, Endpoint, NO_FAULTS)) == Ready(typ, id, threshold)
  {
    var r := Record(typ, Draft, false, "", None, false, None);
    PipelineOutcome(r, Endpoint, NO_FAULTS);
    var s1 := Step(Fresh(threshold), InstallOp(id, typ, None));
    assert s1.recs == map[id := r];
    assert s1.recs[id := Pipeline(r, Endpoint, NO_FAULTS)] == Ready(typ, id, threshold).recs;
  }

  /** Every plugin can be installed and verified. */
  lemma ReadyIsReached(typ: PluginType, id: Id, threshold: real) returns (ss: seq<State>, ops: seq<Op>)
    requires id != ""
    ensures Reaches(ss, ops, Ready(typ, id, threshold)) && ss[0] == Fresh(threshold)
  {
    PipelineWorks(typ, id, threshold);
    ops := [InstallOp(id, typ, None), PipelineOp(id, Endpoint, NO_FAULTS)];
    ss := [Fresh(threshold), Step(Fresh(threshold), ops[0]), Ready(typ, id, threshold)];
    forall i | 0 <= i < |ops| ensures Goes(ss[i], ops[i], ss[i + 1]) { assert i == 0 || i == 1; }
    RunOf(ss, ops);
  }

  /** One step of a run. */
  ghost predicate Goes(s: State, op: Op, t: State) {
    Allowed(s, op) && t == Step(s, op) && Recorded(s, op)
  }

  lemma SwitchGoes(s: State, id: Id, mode: Mode, env: Env)
    requires s.up && !Torn(s, id, mode, env)
    ensures Goes(s, SwitchOp(id, mode, env), Switch(s, id, mode, env).0)
  {}

  lemma RunOf(ss: seq<State>, ops: seq<Op>)
    requires |ss| == |ops| + 1 && ss[0] == Fresh(ss[0].threshold)
    requires forall i :: 0 <= i < |ops| ==> Goes(ss[i], ops[i], ss[i + 1])
    ensures IsRun(ss, ops)
  {
    forall i | 0 <= i < |ops|
      ensures Allowed(ss[i], ops[i]) && ss[i + 1] == Step(ss[i], ops[i]) && Recorded(ss[i], ops[i])
    {
      assert Goes(ss[i], ops[i], ss[i + 1]);
    }
  }

  lemma GoesAt(ss: seq<State>, ops: seq<Op>, i: nat)
    requires IsRun(ss, ops) && i < |ops|
    ensures Goes(ss[i], ops[i], ss[i + 1])
  {}

  lemma OneStepMore(ss: seq<State>, ops: seq<Op>, s: State, op: Op, t: State) returns (tt: seq<State>, pp: seq<Op>)
    requires Reaches(ss, ops, s) && Goes(s, op, t)
    ensures Reaches(tt, pp, t) && tt[0] == ss[0] && |tt| == |ss| + 1 && tt[|ss| - 1] == s
  {
    tt, pp := ss + [t], ops + [op];
    forall i | 0 <= i < |pp| ensures Goes(tt[i], pp[i], tt[i + 1]) {
      if i < |ops| { GoesAt(ss, ops, i); }
    }
    RunOf(tt, pp);
  }

  lemma ReachableIsSound(ss: seq<State>, ops: seq<Op>, s: State)
    requires Reaches(ss, ops, s)
    ensures Inv(s)
  {
    RunKeepsInv(ss, ops, |ops|);
  }

  /** The environment of an activation for which `conf` is confirmed. */
  function Confirming(conf: Option<real>, changed: bool): Env {
    CALM.(conf := conf, plan := Proceed(true, false, changed))
  }

  lemma ActivationWorks(typ: PluginType, id: Id, was: real, conf: Option<real>, changed: bool)
    requires id != "" && Askable(typ, conf, changed)
    ensures var s, env := Ready(typ, id, was), Confirming(conf, changed);
            && Switch(s, id, Activate, env) == (Serving(typ, id, was, conf, changed), true)
            && !Torn(s, id, Activate, env)
  {
    var s, env := Ready(typ, id, was), Confirming(conf, changed);
    var w := Switching(id, Activate, SlotOf(typ), id, "", Verified, conf, typ == SimilarityMetric);
    ActivationSetsOut(typ, id, was, conf, changed);
    var a := Announced(MigratingStage(s, w, env), w, env);
    CommitServes(typ, id, was, conf, changed, a, w);
    FinishServes(MigratingStage(s, w, env), a, w, env, Serving(typ, id, was, conf, changed));
  }

  lemma ActivationSetsOut(typ: PluginType, id: Id, was: real, conf: Option<real>, changed: bool)
    requires id != "" && Askable(typ, conf, changed)
    ensures var s, env := Ready(typ, id, was), Confirming(conf, changed);
            var w := Switching(id, Activate, SlotOf(typ), id, "", Verified, conf, typ == SimilarityMetric);
            && Starts(s, id, Activate, env) && Begin(s, id, Activate, env) == w && EarlyEnd(w, env).None?
            && MigratingStage(s, w, env) == s.(recs := map[id := s.recs[id].(stage := Migrating)])
            && Announced(MigratingStage(s, w, env), w, env) == s.(recs := map[id := s.recs[id].(stage := Activating)])
  {
    var s, env := Ready(typ, id, was), Confirming(conf, changed);
    var w := Switching(id, Activate, SlotOf(typ), id, "", Verified, conf, typ == SimilarityMetric);
    assert Begin(s, id, Activate, env) == w && EarlyEnd(w, env).None?;
    StagesInTurn(s, s.recs[id], w, env);
  }

  /** The stages an activation goes through, for the only plugin there is. */
  lemma StagesInTurn(s: State, r: Record, w: Switching, env: Env)
    requires s.recs == map[w.actor := r] && w.mode == Activate && r.stage == Verified
    requires env.stages == CALM.stages && env.plan.Proceed? && env.plan.gate
    ensures MigratingStage(s, w, env) == s.(recs := map[w.actor := r.(stage := Migrating)])
    ensures Announced(MigratingStage(s, w, env), w, env) == s.(recs := map[w.actor := r.(stage := Activating)])
  {
    OnlyMoves(s, w.actor, r, Checking);
    var t := Preparing(s, w);
    OnlyMoves(t, w.actor, r.(stage := Checking), Migrating);
    OnlyMoves(MigratingStage(s, w, env), w.actor, r.(stage := Migrating), Activating);
  }

  lemma OnlyMoves(s: State, id: Id, r: Record, to: Stage)
    requires s.recs == map[id := r]
    ensures Force(s, id, to) == s.(recs := map[id := r.(stage := to)])
    ensures ValidTransition(r.stage, to) ==> TryMove(s, id, to) == s.(recs := map[id := r.(stage := to)])
  {
    assert s.recs[id := r.(stage := to)] == map[id := r.(stage := to)];
  }

  lemma FinishServes(t: State, a: State, w: Switching, env: Env, u: State)
    requires w.target != "" && a == Announced(t, w, env)
    requires Commit(Install(a, w.slot, Adapter(w.target)), w, env, t.threshold) == (u.(threshold := t.threshold), true)
    requires u.threshold == if PlanThreshold(w, env).Some? then PlanThreshold(w, env).value else t.threshold
    ensures Finish(t, w, env) == (u, true)
  {}

  lemma CommitServes(typ: PluginType, id: Id, was: real, conf: Option<real>, changed: bool, a: State, w: Switching)
    requires id != "" && Askable(typ, conf, changed)
    requires a == Fresh(was).(recs := map[id := Record(typ, Activating, false, "", None, true, None)])
    requires w == Switching(id, Activate, SlotOf(typ), id, "", Verified, conf, typ == SimilarityMetric)
    ensures Commit(Install(a, w.slot, Adapter(id)), w, Confirming(conf, changed), was)
        == (Serving(typ, id, was, conf, changed).(threshold := was), true)
  {
    var u := Commit(Install(a, w.slot, Adapter(id)), w, Confirming(conf, changed), was).0;
    var serving := Serving(typ, id, was, conf, changed);
    assert u.recs == serving.recs && u.regActive == serving.regActive;
    assert u.active == serving.active && u.impl == serving.impl;
  }

  /** And every one can be activated, with a new threshold if its plan asks for one. */
  lemma ServingIsReached(typ: PluginType, id: Id, was: real, conf: Option<real>, changed: bool)
      returns (ss: seq<State>, ops: seq<Op>)
    requires id != "" && Askable(typ, conf, changed)
    ensures Reaches(ss, ops, Serving(typ, id, was, conf, changed)) && ss[0] == Fresh(was)
    ensures Inv(Serving(typ, id, was, conf, changed))
  {
    ss, ops := ReadyIsReached(typ, id, was);
    ActivationWorks(typ, id, was, conf, changed);
    ss, ops := OneStepMore(ss, ops, Ready(typ, id, was), SwitchOp(id, Activate, Confirming(conf, changed)),
        Serving(typ, id, was, conf, changed));
    ReachableIsSound(ss, ops, Serving(typ, id, was, conf, changed));
  }

  // ---- the findings ------------------------------------------------------------------------------

  /** Activating a verified plugin while its record cannot be updated breaks the invariant. */
  lemma TornIsReached(typ: PluginType, id: Id, threshold: real)
      returns (ss: seq<State>, ops: seq<Op>, s: State, env: Env)
    requires id != ""
    ensures Reaches(ss, ops, s) && s.up && Inv(s)
    ensures Torn(s, id, Activate, env) && !Inv(Switch(s, id, Activate, env).0)
  {
    ss, ops := ReadyIsReached(typ, id, threshold);
    s, env := Ready(typ, id, threshold), CALM.(conf := Needed(typ), updateNewFails := true);
    ReachableIsSound(ss, ops, s);
    var w := Begin(s, id, Activate, env);
    assert Starts(s, id, Activate, env) && EarlyEnd(w, env).None? && w.target == id;
    SwitchKeepsInvIff(s, id, Activate, env);
  }

  /** A deactivation whose selection the registry cannot clear leaves a serving plugin that
      cannot be rolled back. */
  lemma BlockedRollbackIsReached(typ: PluginType, id: Id, threshold: real)
      returns (ss: seq<State>, ops: seq<Op>, s: State)
    requires id != ""
    ensures Reaches(ss, ops, s) && s.up && id in s.recs
    ensures s.recs[id].active && s.recs[id].stage == Failed && Installed(s, SlotOf(typ)) == Adapter(id)
    ensures MayBegin(s, id, Deactivate) && !MayBegin(s, id, Rollback)
  {
    ss, ops := ServingIsReached(typ, id, threshold, Needed(typ), typ == SimilarityMetric);
    ss, ops, s := FailToDeactivate(ss, ops, Serving(typ, id, threshold, Needed(typ), typ == SimilarityMetric), id);
  }

  /** That happens to every plugin that serves. */
  lemma FailToDeactivate(ss: seq<State>, ops: seq<Op>, s: State, id: Id)
      returns (tt: seq<State>, pp: seq<Op>, t: State)
    requires Reaches(ss, ops, s) && s.up && id in s.recs && s.recs[id].active
    ensures Reaches(tt, pp, t) && t.up && id in t.recs && t.recs[id].typ == s.recs[id].typ
    ensures t.recs[id].active && t.recs[id].stage == Failed && Installed(t, SlotOf(t.recs[id].typ)) == Adapter(id)
    ensures MayBegin(t, id, Deactivate) && !MayBegin(t, id, Rollback)
  {
    var env := CALM.(selectFails := true);
    ReachableIsSound(ss, ops, s);
    DeactivationLeaves(s, id, env);
    t := Switch(s, id, Deactivate, env).0;
    SwitchGoes(s, id, Deactivate, env);
    tt, pp := OneStepMore(ss, ops, s, SwitchOp(id, Deactivate, env), t);
  }

  lemma DeactivationLeaves(s: State, id: Id, env: Env)
    requires Inv(s) && s.up && id in s.recs && s.recs[id].active && env == CALM.(selectFails := true)
    ensures var t := Switch(s, id, Deactivate, env).0;
            && t.up && id in t.recs && t.recs[id].active && t.recs[id].stage == Failed
            && Installed(t, SlotOf(t.recs[id].typ)) == Adapter(id) && t.recs[id].typ == s.recs[id].typ
            && MayBegin(t, id, Deactivate) && !MayBegin(t, id, Rollback) && !Torn(s, id, Deactivate, env)
  {
    SwitchHappensIff(s, id, Deactivate, env);
    FailedDeactivationBlocksRollback(s, id, env);
    assert Installed(s, SlotOf(s.recs[id].typ)) == ImplOf(Lookup(s.regActive, SlotOf(s.recs[id].typ)));
  }

  /** Rolling back a plugin whose activation set the threshold, when the change of metric is not
      seen again, brings back the built-in but not the threshold. */
  lemma LostThresholdIsReached(id: Id, was: real, now: real) returns (ss: seq<State>, ops: seq<Op>, s: State)
    requires id != "" && now >= 0.0
    ensures Reaches(ss, ops, s) && ss[0] == Fresh(was)
    ensures Lookup(s.active, VectorStoreSlot) == "" && s.threshold == now
  {
    ss, ops := ServingIsReached(SimilarityMetric, id, was, Some(now), true);
    ss, ops, s := RollToBuiltin(ss, ops, Serving(SimilarityMetric, id, was, Some(now), true), id);
  }

  /** A rollback to the built-in vector store whose metric is not seen to change. */
  lemma RollToBuiltin(ss: seq<State>, ops: seq<Op>, s: State, id: Id)
      returns (tt: seq<State>, pp: seq<Op>, t: State)
    requires Reaches(ss, ops, s) && s.up && Lookup(s.active, VectorStoreSlot) == id && id in s.recs
    requires s.recs[id].active && s.recs[id].stage == Active && s.recs[id].prev == ""
    requires SlotOf(s.recs[id].typ) == VectorStoreSlot
    ensures Reaches(tt, pp, t) && tt[0] == ss[0]
    ensures Lookup(t.active, VectorStoreSlot) == "" && t.threshold == s.threshold
  {
    ReachableIsSound(ss, ops, s);
    RollbackLeaves(s, id);
    t := Switch(s, id, Rollback, CALM).0;
    SwitchGoes(s, id, Rollback, CALM);
    tt, pp := OneStepMore(ss, ops, s, SwitchOp(id, Rollback, CALM), t);
  }

  lemma RollbackLeaves(s: State, id: Id)
    requires Inv(s) && s.up && Lookup(s.active, VectorStoreSlot) == id && id in s.recs
    requires s.recs[id].active && s.recs[id].stage == Active && s.recs[id].prev == ""
    requires SlotOf(s.recs[id].typ) == VectorStoreSlot
    ensures var (t, ok) := Switch(s, id, Rollback, CALM);
            && ok && !Torn(s, id, Rollback, CALM)
            && Lookup(t.active, VectorStoreSlot) == "" && t.threshold == s.threshold
  {
    RollbackReachesCommit(s, id);
    SwitchHappensIff(s, id, Rollback, CALM);
    SwitchEffect(s, id, Rollback, CALM);
  }

  lemma RollbackReachesCommit(s: State, id: Id)
    requires "" !in s.recs && id in s.recs && s.recs[id].active && s.recs[id].stage == Active && s.recs[id].prev == ""
    ensures ReachesCommit(s, id, Rollback, CALM) && Begin(s, id, Rollback, CALM).target == ""
    ensures !Torn(s, id, Rollback, CALM) && PlanThreshold(Begin(s, id, Rollback, CALM), CALM).None?
  {}

  /** A threshold confirmed for a vector store whose plan did not ask for one comes into force
      at the next restart, although the configuration has not changed. */
  lemma RestartChangesThreshold(typ: PluginType, id: Id, was: real, confirmed: real)
      returns (ss: seq<State>, ops: seq<Op>, s: State, t: State)
    requires id != "" && SlotOf(typ) == VectorStoreSlot && typ != SimilarityMetric
    ensures Reaches(ss, ops, t) && ss[0] == Fresh(was) && |ops| > 0 && s == ss[|ops| - 1]
    ensures s.up && t.up && forall slot :: Lookup(t.active, slot) == Lookup(s.active, slot)
    ensures s.threshold == was && t.threshold == confirmed
  {
    ss, ops := ServingIsReached(typ, id, was, Some(confirmed), false);
    s := Serving(typ, id, was, Some(confirmed), false);
    OnlySelection(s, id);
    ss, ops, t := RestartAll(ss, ops, s, map[VectorStoreSlot := true], was);
  }

  lemma OnlySelection(s: State, id: Id)
    requires s.regActive == map[VectorStoreSlot := id]
    ensures forall slot :: Restorable(s.regActive, map[VectorStoreSlot := true], slot)
    ensures Lookup(s.regActive, VectorStoreSlot) == id
  {}

  /** A restart at which every selected plugin works. */
  lemma RestartAll(ss: seq<State>, ops: seq<Op>, s: State, works: map<Slot, bool>, configured: real)
      returns (tt: seq<State>, pp: seq<Op>, t: State)
    requires Reaches(ss, ops, s) && s.up && forall slot :: Restorable(s.regActive, works, slot)
    ensures Reaches(tt, pp, t) && |tt| == |ss| + 1 && tt[|ss| - 1] == s && tt[0] == ss[0]
    ensures t.up && t.threshold == PluginSwitch.Kept(s, configured)
    ensures forall slot :: Lookup(t.active, slot) == Lookup(s.active, slot)
  {
    var op := RestartOp(works, configured);
    ReachableIsSound(ss, ops, s);
    t := Restart(s, works, configured);
    RestartServes(s, works, configured);
    RestartThreshold(s, works, configured);
    forall slot ensures Lookup(t.active, slot) == Lookup(s.active, slot) {
      assert Served(s.regActive, s.recs, t.active, t.recs, works, slot);
      assert Lookup(s.active, slot) == Lookup(s.regActive, slot);
    }
    tt, pp := OneStepMore(ss, ops, s, op, t);
  }

  /** A lost verdict leaves a verified plugin that has no recorded pass, ready to be activated. */
  lemma UnprovenIsReached(typ: PluginType, id: Id, threshold: real) returns (s: State, t: State, faults: Faults)
    requires id != ""
    ensures s == Step(Fresh(threshold), InstallOp(id, typ, None)) && Allowed(s, PipelineOp(id, Endpoint, faults))
    ensures t == Step(s, PipelineOp(id, Endpoint, faults)) && !Inv(t)
    ensures t.recs[id].stage == Verified && !t.recs[id].passed && MayBegin(t, id, Activate)
  {
    faults := NO_FAULTS.(verdictLost := true);
    s := Step(Fresh(threshold), InstallOp(id, typ, None));
    t := Step(s, PipelineOp(id, Endpoint, faults));
    LostVerdict(s.recs[id], faults);
    UnprovenUnsound(t, id);
  }

  lemma LostVerdict(r: Record, faults: Faults)
    requires r.stage == Draft && !r.active && !r.passed && faults == NO_FAULTS.(verdictLost := true)
    ensures Pipeline(r, Endpoint, faults) == r.(stage := Verified)
  {
    PipelineOutcome(r, Endpoint, faults);
  }

  lemma UnprovenUnsound(t: State, id: Id)
    requires id != "" && id in t.recs && t.recs[id].stage == Verified && !t.recs[id].passed && t.active == map[]
    ensures !Inv(t) && MayBegin(t, id, Activate)
  {}
}
