/** What a switch of a slot comes to, said of the records, the confirmations and the failures alone:
    when it happens, everything it changes when it does, and what it leaves when it does not. */
module SwitchLaws {
  import opened Entries
  import opened Lifecycle
  import opened PluginSwitch

  /** The plugin that is to serve, "" for the built-in. */
  function Goal(rec: Record, id: Id, mode: Mode): Id {
    if mode == Activate then id else if mode == Deactivate then "" else rec.prev
  }

  /** The threshold at hand: the one confirmed now, or the one put aside when the plugin that is left
      was activated. */
  function Given(rec: Record, mode: Mode, env: Env): Option<real> {
    if mode == Activate || env.conf.Some? then env.conf else rec.prevThreshold
  }

  /** A vector store is switched, and the metric changes or the new plugin is a metric. */
  predicate NewMetric(s: State, id: Id, mode: Mode, env: Env)
    requires id in s.recs
  {
    var goal := Goal(s.recs[id], id, mode);
    && s.recs[id].typ in {VectorStore, VectorIndex, SimilarityMetric}
    && env.plan.Proceed?
    && (env.plan.metricChanged || (goal in s.recs && s.recs[goal].typ == SimilarityMetric))
  }

  /** Whether the plugin may be activated, deactivated or rolled back at all. */
  predicate MaySetOut(s: State, id: Id, mode: Mode) {
    && id in s.recs
    && var rec := s.recs[id];
    match mode
    case Activate =>
      && (rec.stage in {Verified, Inactive, RolledBack} || (rec.stage == Failed && rec.passed))
      && Lookup(s.active, SlotOf(rec.typ)) != id
    case Deactivate => rec.active
    case Rollback => rec.active && rec.stage in {Active, RollingBack}
  }

  lemma GuardsAgree(s: State, id: Id, mode: Mode)
    requires Inv(s)
    ensures MaySetOut(s, id, mode) <==> MayBegin(s, id, mode)
  {
    if id in s.recs && s.recs[id].active { assert s.recs[id].prev != "" ==> s.recs[id].prev in s.recs; }
  }

  lemma MetricsAgree(s: State, id: Id, mode: Mode, env: Env)
    requires Inv(s) && id in s.recs
    ensures var w := Begin(s, id, mode, env);
            && (MetricChanges(w, env) <==> NewMetric(s, id, mode, env))
            && w.conf == Given(s.recs[id], mode, env) && w.target == Goal(s.recs[id], id, mode)
            && w.slot == SlotOf(s.recs[id].typ) && w.before == s.recs[id].stage
            && w.leaving == Lookup(s.active, w.slot)
  {
    VectorStoreTypes(s.recs[id].typ);
  }

  lemma VectorStoreTypes(t: PluginType)
    ensures SlotOf(t) == VectorStoreSlot <==> t in {VectorStore, VectorIndex, SimilarityMetric}
  {}

  /** What stands in the way of a switch that has set out, before the components are swapped. */
  predicate Stopped(s: State, id: Id, mode: Mode, env: Env)
    requires id in s.recs
  {
    var rec := s.recs[id];
    || (Goal(rec, id, mode) != "" && env.prepareFails)
    || !env.plan.Proceed?
    || (NewMetric(s, id, mode, env) && (Given(rec, mode, env).None? || Given(rec, mode, env).value < 0.0))
    || (env.plan.gate && mode == Activate && env.stages.migrating)
  }

  lemma StopsAgree(s: State, id: Id, mode: Mode, env: Env)
    requires Inv(s) && id in s.recs
    ensures EarlyEnd(Begin(s, id, mode, env), env).Some? <==> Stopped(s, id, mode, env)
  {
    MetricsAgree(s, id, mode, env);
  }

  /** A switch happens exactly if it may set out and its first stage is written, nothing stops it, the
      change is carried out, the selection is written and so is the record of a new plugin. */
  lemma SwitchHappensWhen(s: State, id: Id, mode: Mode, env: Env)
    requires Inv(s) && s.up
    ensures Switch(s, id, mode, env).1 <==>
              && MaySetOut(s, id, mode) && (mode == Deactivate || !env.stages.first)
              && !Stopped(s, id, mode, env)
              && env.exec == NoExecFault && !env.selectFails
              && (Goal(s.recs[id], id, mode) == "" || !env.updateNewFails)
  {
    SwitchHappensIff(s, id, mode, env);
    GuardsAgree(s, id, mode);
    if id in s.recs {
      StopsAgree(s, id, mode, env);
      MetricsAgree(s, id, mode, env);
    }
  }

  /** Where the metric changes, a switch that happens has a threshold to go with it, and that one is
      then in force; without one it does not happen, and waits with its stage as it was. */
  lemma MetricChangeNeedsThreshold(s: State, id: Id, mode: Mode, env: Env)
    requires Inv(s) && s.up && id in s.recs && NewMetric(s, id, mode, env)
    ensures var (r, ok) := Switch(s, id, mode, env);
            var given := Given(s.recs[id], mode, env);
            && (ok ==> given.Some? && given.value >= 0.0)
            && (ok && !Torn(s, id, mode, env) ==> r.threshold == given.value)
            && (given.None? ==> !ok && Untouched(s, r, id))
            && (given.None? && !(Goal(s.recs[id], id, mode) != "" && env.prepareFails) && !env.stages.closing ==>
                  r.recs[id].stage == s.recs[id].stage)
  {
    SwitchHappensWhen(s, id, mode, env);
    MetricsAgree(s, id, mode, env);
    if Switch(s, id, mode, env).1 {
      if !Torn(s, id, mode, env) { SwitchEffect(s, id, mode, env); }
    } else if Given(s.recs[id], mode, env).None? {
      StopsAgree(s, id, mode, env);
      FailedSwitchChangesNothing(s, id, mode, env);
      if !(Goal(s.recs[id], id, mode) != "" && env.prepareFails) && !env.stages.closing {
        WaitsAsBefore(s, id, mode, env);
      }
    }
  }

  lemma WaitsAsBefore(s: State, id: Id, mode: Mode, env: Env)
    requires Inv(s) && s.up && id in s.recs && NewMetric(s, id, mode, env) && Given(s.recs[id], mode, env).None?
    requires !(Goal(s.recs[id], id, mode) != "" && env.prepareFails) && !env.stages.closing
    ensures id in Switch(s, id, mode, env).0.recs && Switch(s, id, mode, env).0.recs[id].stage == s.recs[id].stage
  {
    MetricsAgree(s, id, mode, env);
    assert EarlyEnd(Begin(s, id, mode, env), env) == Some(true);
  }

  // ---- everything a switch that happens changes ------------------------------------------------------

  /** The record of `o` afterwards, when `id` has been switched. */
  function RecordAfter(s: State, id: Id, mode: Mode, env: Env, o: Id): Record
    requires id in s.recs && o in s.recs
  {
    var rec := s.recs[id];
    var given, was := Given(rec, mode, env), Lookup(s.active, SlotOf(rec.typ));
    if o == Goal(rec, id, mode) then
      s.recs[o].(stage := Active, active := true, confirmed := given,
                 prev := if mode == Activate then was else "",
                 prevThreshold := if mode == Activate && NewMetric(s, id, mode, env) then Some(s.threshold) else None)
    else if o == was then s.recs[o].(active := false, stage := if mode == Rollback then RolledBack else Inactive)
    else s.recs[o]
  }

  /** A switch that happens with all its updates recorded changes the selection, the registry's as
      well as the manager's, and the implementation of its own slot; the records of the plugin that
      comes and of the one that goes; the threshold if the metric changes; and nothing else. */
  lemma SwitchChanges(s: State, id: Id, mode: Mode, env: Env)
    requires Inv(s) && s.up && Switch(s, id, mode, env).1 && !Torn(s, id, mode, env)
    ensures id in s.recs
    ensures var r := Switch(s, id, mode, env).0;
            var rec := s.recs[id];
            var goal, at := Goal(rec, id, mode), SlotOf(rec.typ);
            && r.up
            && (forall slot :: Lookup(r.active, slot) == if slot == at then goal else Lookup(s.active, slot))
            && (forall slot :: Lookup(r.regActive, slot) == if slot == at then goal else Lookup(s.regActive, slot))
            && (forall slot :: Installed(r, slot) ==
                  if slot != at then Installed(s, slot) else if goal == "" then Builtin else Adapter(goal))
            && (if NewMetric(s, id, mode, env) then Given(rec, mode, env) == Some(r.threshold)
                else r.threshold == s.threshold)
            && r.recs.Keys == s.recs.Keys
            && forall o :: o in s.recs ==> r.recs[o] == RecordAfter(s, id, mode, env, o)
  {
    MetricsAgree(s, id, mode, env);
    SwitchHappensWhen(s, id, mode, env);
    SwitchEffect(s, id, mode, env);
    var a := SuccessCommits(s, id, mode, env);
    SelectionsChange(s, id, mode, env, a);
    RecordsChange(s, id, mode, env, a);
  }

  /** A switch that happened is the commit of a state that differs from `s` in the stage of its own
      plugin at most, with the planned threshold. */
  lemma SuccessCommits(s: State, id: Id, mode: Mode, env: Env) returns (a: State)
    requires Inv(s) && s.up && Switch(s, id, mode, env).1 && !Torn(s, id, mode, env)
    ensures id in s.recs && CommitWorks(Begin(s, id, mode, env), env)
    ensures var w, r := Begin(s, id, mode, env), Switch(s, id, mode, env).0;
            var u := Committed(a, w, env, s.threshold);
            && OnlyStage(s, a, id) && Consistent(a, w) && w.actor == id && "" !in a.recs
            && r.active == u.active && r.regActive == u.regActive && r.impl == u.impl && r.recs == u.recs
  {
    var w := Begin(s, id, mode, env);
    SuccessFinishes(s, id, mode, env);
    SwitchSetsOut(s, id, mode, env);
    var t := MigratingStage(s, w, env);
    AnnounceStages(s, t, w, env);
    a := Announced(t, w, env);
    FinishCommits(t, w, env);
  }

  lemma FinishCommits(t: State, w: Switching, env: Env)
    requires CommitWorks(w, env) && (w.target != "" ==> w.target in Announced(t, w, env).recs)
    ensures var u, r := Committed(Announced(t, w, env), w, env, t.threshold), Finish(t, w, env).0;
            r.active == u.active && r.regActive == u.regActive && r.impl == u.impl && r.recs == u.recs
  {
    var a := Announced(t, w, env);
    CommitWrites(a, w, env, t.threshold);
    FinishOf(t, w, env, a, Commit(Install(a, w.slot, ImplOf(w.target)), w, env, t.threshold).0);
  }

  lemma FinishOf(t: State, w: Switching, env: Env, a: State, u: State)
    requires a == Announced(t, w, env)
    requires Commit(Install(a, w.slot, ImplOf(w.target)), w, env, t.threshold) == (u, true)
    ensures Finish(t, w, env).0 == WithThreshold(u, PlanThreshold(w, env))
  {}

  function WithThreshold(u: State, threshold: Option<real>): State {
    match threshold
    case None => u
    case Some(x) => u.(threshold := x)
  }

  lemma SelectionsChange(s: State, id: Id, mode: Mode, env: Env, a: State)
    requires id in s.recs && CommitWorks(Begin(s, id, mode, env), env)
    requires OnlyStage(s, a, id) && Consistent(a, Begin(s, id, mode, env))
    ensures var w := Begin(s, id, mode, env);
            var u := Committed(a, w, env, s.threshold);
            && (forall slot :: Lookup(u.active, slot) == if slot == w.slot then w.target else Lookup(s.active, slot))
            && (forall slot ::
                  Lookup(u.regActive, slot) == if slot == w.slot then w.target else Lookup(s.regActive, slot))
            && (forall slot :: Installed(u, slot) ==
                  if slot != w.slot then Installed(s, slot) else if w.target == "" then Builtin else Adapter(w.target))
  {
    CommitLookups(a, Begin(s, id, mode, env), env, s.threshold);
  }

  lemma RecordsChange(s: State, id: Id, mode: Mode, env: Env, a: State)
    requires Inv(s) && id in s.recs && CommitWorks(Begin(s, id, mode, env), env) && "" !in a.recs
    requires OnlyStage(s, a, id) && Consistent(a, Begin(s, id, mode, env))
    requires NewMetric(s, id, mode, env) ==> Given(s.recs[id], mode, env).Some?
    ensures var u := Committed(a, Begin(s, id, mode, env), env, s.threshold);
            u.recs.Keys == s.recs.Keys && forall o :: o in s.recs ==> u.recs[o] == RecordAfter(s, id, mode, env, o)
  {
    var w := Begin(s, id, mode, env);
    MetricsAgree(s, id, mode, env);
    CommitKeys(a, w, env, s.threshold);
    forall o | o in s.recs
      ensures Committed(a, w, env, s.threshold).recs[o] == RecordAfter(s, id, mode, env, o)
    {
      CommitRecord(a, w, env, s.threshold, o);
      assert a.recs[o] == if o == id then s.recs[o].(stage := a.recs[o].stage) else s.recs[o];
    }
  }

  /** A switch whose new record cannot be updated is reported as failed, and everything is as before but for
      the stage of its own plugin, except that the registry has already selected what should have come. */
  lemma TornAtNewRecord(s: State, id: Id, mode: Mode, env: Env)
    requires Inv(s) && s.up && ReachesCommit(s, id, mode, env)
    requires Goal(s.recs[id], id, mode) != "" && env.updateNewFails
    ensures var (r, ok) := Switch(s, id, mode, env);
            var goal, at := Goal(s.recs[id], id, mode), SlotOf(s.recs[id].typ);
            && !ok && r.active == s.active && r.threshold == s.threshold && r.up
            && (forall slot :: Installed(r, slot) == Installed(s, slot))
            && (forall slot :: Lookup(r.regActive, slot) == if slot == at then goal else Lookup(s.regActive, slot))
            && r.recs.Keys == s.recs.Keys && forall o :: o in s.recs && o != id ==> r.recs[o] == s.recs[o]
  {
    MetricsAgree(s, id, mode, env);
    SwitchSetsOut(s, id, mode, env);
    var w := Begin(s, id, mode, env);
    var t := MigratingStage(s, w, env);
    AnnounceStages(s, t, w, env);
    TornFinish(t, w, env);
    TornKeeps(s, t, Announced(t, w, env), Finish(t, w, env).0, w);
    SwitchFinishes(s, id, mode, env);
  }

  lemma SwitchFinishes(s: State, id: Id, mode: Mode, env: Env)
    requires ReachesCommit(s, id, mode, env)
    ensures var w := Begin(s, id, mode, env);
            Switch(s, id, mode, env) == Finish(MigratingStage(s, w, env), w, env)
  {}

  lemma TornFinish(t: State, w: Switching, env: Env)
    requires w.target != "" && env.updateNewFails && !env.selectFails
    ensures !Finish(t, w, env).1 && TornFrom(t, Announced(t, w, env), Finish(t, w, env).0, w)
  {}

  ghost predicate TornFrom(t: State, a: State, r: State, w: Switching) {
    && r.active == a.active && r.threshold == a.threshold && r.up == a.up
    && r.regActive == a.regActive[w.slot := w.target]
    && (forall slot :: Installed(r, slot) == if slot == w.slot then Installed(t, w.slot) else Installed(a, slot))
    && r.recs.Keys == a.recs.Keys && forall o :: o in a.recs && o != w.actor ==> r.recs[o] == a.recs[o]
  }

  lemma TornKeeps(s: State, t: State, a: State, r: State, w: Switching)
    requires OnlyStage(s, t, w.actor) && OnlyStage(s, a, w.actor) && TornFrom(t, a, r, w)
    ensures r.active == s.active && r.threshold == s.threshold && r.up == s.up
    ensures forall slot :: Installed(r, slot) == Installed(s, slot)
    ensures forall slot :: Lookup(r.regActive, slot) == if slot == w.slot then w.target else Lookup(s.regActive, slot)
    ensures r.recs.Keys == s.recs.Keys && forall o :: o in s.recs && o != w.actor ==> r.recs[o] == s.recs[o]
  {}

  /** The record of `o` that a commit leaves. */
  lemma CommitRecord(a: State, w: Switching, env: Env, prevThreshold: real, o: Id)
    requires Consistent(a, w) && CommitWorks(w, env) && "" !in a.recs && o in a.recs
    ensures var u := Committed(a, w, env, prevThreshold);
            && o in u.recs
            && u.recs[o] == if o == w.target then
                              a.recs[o].(stage := Active, active := true,
                                         prev := if w.mode == Activate then w.leaving else "",
                                         prevThreshold := Replaced(w, env, prevThreshold), confirmed := w.conf)
                            else if o == w.leaving then a.recs[o].(active := false, stage := LeftStage(w.mode))
                            else a.recs[o]
  {}

  lemma CommitKeys(a: State, w: Switching, env: Env, prevThreshold: real)
    requires Consistent(a, w)
    ensures Committed(a, w, env, prevThreshold).recs.Keys == a.recs.Keys
  {}

  /** A plugin that was left, by a deactivation or a rollback, may be activated again. */
  lemma LeftMayReturn(s: State, id: Id, mode: Mode, env: Env)
    requires Inv(s) && s.up && mode != Activate && Switch(s, id, mode, env).1 && !Torn(s, id, mode, env)
    ensures var r := Switch(s, id, mode, env).0;
            && id in r.recs && !r.recs[id].active
            && r.recs[id].stage == (if mode == Rollback then RolledBack else Inactive)
            && MayBegin(r, id, Activate)
  {
    SwitchChanges(s, id, mode, env);
    SwitchEffect(s, id, mode, env);
    var r, w := Switch(s, id, mode, env).0, Begin(s, id, mode, env);
    BeginIsConsistent(s, id, mode, env);
    assert r.recs[id] == RecordAfter(s, id, mode, env, id);
    GuardsAgree(r, id, Activate);
  }

  // ---- what a switch that does not happen leaves --------------------------------------------------------

  /** It leaves everything but the stage of its own plugin; that says, if the last update works, how
      it ended: as before if it waits for the administrator or never set out, active after a
      failed rollback, and failed otherwise. */
  lemma FailedSwitchStage(s: State, id: Id, mode: Mode, env: Env)
    requires Inv(s) && s.up && !Switch(s, id, mode, env).1 && !Torn(s, id, mode, env)
    ensures var r := Switch(s, id, mode, env).0;
            && Untouched(s, r, id)
            && (!MaySetOut(s, id, mode) || (mode != Deactivate && env.stages.first) ==> r == s)
            && (MaySetOut(s, id, mode) && (mode == Deactivate || !env.stages.first) && !env.stages.closing ==>
                  r.recs[id].stage == if Waits(s, id, mode, env) then s.recs[id].stage
                                      else if mode == Rollback then Active else Failed)
            && (MaySetOut(s, id, mode) && (mode == Deactivate || !env.stages.first) && env.stages.closing ==>
                  r.recs[id].stage == Shown(s, id, mode, env))
  {
    FailedSwitchChangesNothing(s, id, mode, env);
    GuardsAgree(s, id, mode);
    if Starts(s, id, mode, env) {
      if env.stages.closing { FailedShows(s, id, mode, env); } else { FailedStage(s, id, mode, env); }
    }
  }

  /** The stage last shown, if the update that should end a failed switch fails too: that of the preparation,
      of the migration if it came to that and its update worked, or of the activation likewise. A rollback
      has no such stages of its own, nor has the deactivation of an active plugin. */
  function Shown(s: State, id: Id, mode: Mode, env: Env): Stage
    requires id in s.recs
  {
    var prepared := if mode == Activate then Checking else if mode == Rollback then RollingBack else s.recs[id].stage;
    if Stopped(s, id, mode, env) then prepared
    else
      var migrating := if env.plan.gate && !env.stages.migrating && ValidTransition(prepared, Migrating) then Migrating
                       else prepared;
      if env.exec != NoExecFault || mode == Deactivate || env.stages.activating
         || !ValidTransition(migrating, Activating) then migrating
      else Activating
  }

  lemma FailedShows(s: State, id: Id, mode: Mode, env: Env)
    requires Inv(s) && s.up && Starts(s, id, mode, env) && env.stages.closing
    requires !Switch(s, id, mode, env).1 && !Torn(s, id, mode, env)
    ensures id in Switch(s, id, mode, env).0.recs
    ensures Switch(s, id, mode, env).0.recs[id].stage == Shown(s, id, mode, env)
  {
    StopsAgree(s, id, mode, env);
    SwitchSetsOut(s, id, mode, env);
    var w := Begin(s, id, mode, env);
    if EarlyEnd(w, env).None? {
      MigratingShows(s, id, mode, env);
      if !ExecuteFails(env) {
        FailsAtSelection(s, id, mode, env);
        FinishShows(MigratingStage(s, w, env), w, env);
      }
    }
  }

  lemma MigratingShows(s: State, id: Id, mode: Mode, env: Env)
    requires id in s.recs && env.plan.Proceed?
    ensures var t := MigratingStage(s, Begin(s, id, mode, env), env);
            var prepared := if mode == Activate then Checking else if mode == Rollback then RollingBack
                            else s.recs[id].stage;
            && id in t.recs
            && t.recs[id].stage == if env.plan.gate && !env.stages.migrating && ValidTransition(prepared, Migrating)
                                   then Migrating else prepared
  {}

  lemma FinishShows(t: State, w: Switching, env: Env)
    requires w.actor in t.recs && env.selectFails && env.stages.closing
    ensures w.actor in Finish(t, w, env).0.recs
    ensures Finish(t, w, env).0.recs[w.actor].stage ==
              if w.mode == Deactivate || env.stages.activating || !ValidTransition(t.recs[w.actor].stage, Activating)
              then t.recs[w.actor].stage else Activating
  {}

  /** The administrator is asked: for what becomes of the cached state, or for a threshold. */
  predicate Waits(s: State, id: Id, mode: Mode, env: Env)
    requires id in s.recs
  {
    && !(Goal(s.recs[id], id, mode) != "" && env.prepareFails)
    && (|| env.plan.PlanWaits?
        || (NewMetric(s, id, mode, env) && Given(s.recs[id], mode, env).None?)
        || (!Stopped(s, id, mode, env) && env.exec == MigrateFails(true)))
  }

  lemma FailedStage(s: State, id: Id, mode: Mode, env: Env)
    requires Inv(s) && s.up && Starts(s, id, mode, env) && !env.stages.closing
    requires !Switch(s, id, mode, env).1 && !Torn(s, id, mode, env)
    ensures id in Switch(s, id, mode, env).0.recs
    ensures Switch(s, id, mode, env).0.recs[id].stage ==
              if Waits(s, id, mode, env) then s.recs[id].stage else if mode == Rollback then Active else Failed
  {
    MetricsAgree(s, id, mode, env);
    WaitsAgree(s, id, mode, env);
    SwitchSetsOut(s, id, mode, env);
    var w := Begin(s, id, mode, env);
    if EarlyEnd(w, env).Some? {
      ClosesAs(Preparing(s, w), w, EarlyEnd(w, env).value, env);
    } else if ExecuteFails(env) {
      ClosesAs(MigratingStage(s, w, env), w, ExecuteWaits(env), env);
    } else {
      FailsAtSelection(s, id, mode, env);
      FinishCloses(MigratingStage(s, w, env), w, env);
    }
  }

  lemma WaitsAgree(s: State, id: Id, mode: Mode, env: Env)
    requires Inv(s) && id in s.recs
    ensures var end := EarlyEnd(Begin(s, id, mode, env), env);
            Waits(s, id, mode, env) <==> end == Some(true) || (end.None? && ExecuteWaits(env))
  {
    MetricsAgree(s, id, mode, env);
  }

  lemma ClosesAs(t: State, w: Switching, waits: bool, env: Env)
    requires w.actor in t.recs && !env.stages.closing
    ensures w.actor in Close(t, w, waits, env).recs
    ensures Close(t, w, waits, env).recs[w.actor].stage ==
              if waits then w.before else if w.mode == Rollback then Active else Failed
  {}

  lemma FailsAtSelection(s: State, id: Id, mode: Mode, env: Env)
    requires Inv(s) && s.up && Starts(s, id, mode, env) && !Switch(s, id, mode, env).1 && !Torn(s, id, mode, env)
    requires EarlyEnd(Begin(s, id, mode, env), env).None? && !ExecuteFails(env)
    ensures env.selectFails
  {
    SwitchHappensIff(s, id, mode, env);
  }

  lemma FinishCloses(t: State, w: Switching, env: Env)
    requires w.actor in t.recs && env.selectFails && !env.stages.closing
    ensures w.actor in Finish(t, w, env).0.recs
    ensures Finish(t, w, env).0.recs[w.actor].stage == if w.mode == Rollback then Active else Failed
  {}

  // ---- deletion ------------------------------------------------------------------------------------------

  /** A deletion takes away one record, if that plugin is neither active, nor being worked on, nor what
      an active one would go back to; otherwise it changes nothing. */
  lemma DeleteMeans(s: State, id: Id)
    ensures Delete(s, id) ==
              if && id in s.recs && !s.recs[id].active
                 && s.recs[id].stage in {Draft, Verified, Active, Inactive, Failed, RolledBack}
                 && forall o :: o in s.recs && s.recs[o].active ==> s.recs[o].prev != id
              then s.(recs := map o | o in s.recs && o != id :: s.recs[o])
              else s
  {
    if MayDelete(s, id) { assert s.recs - {id} == map o | o in s.recs && o != id :: s.recs[o]; }
  }

  /** A selection of a plugin that no longer exists is cleared at startup, whatever the slot. */
  lemma RestoreClearsDangling(s: State, slot: Slot, works: bool)
    requires Lookup(s.regActive, slot) != "" && Lookup(s.regActive, slot) !in s.recs
    ensures var (t, ok) := RestoreSlot(s, slot, works);
            && ok && t == s.(regActive := t.regActive) && Lookup(t.regActive, slot) == ""
            && forall x :: x != slot ==> Lookup(t.regActive, x) == Lookup(s.regActive, x)
  {}

  // ---- restart -------------------------------------------------------------------------------------------

  /** A restart comes up exactly if the embedder, the vector store and the persistence that were
      selected, if any, can be restored; it then runs what was selected in these three slots. */
  lemma RestartNeedsState(s: State, works: map<Slot, bool>, configured: real)
    requires Inv(s)
    ensures var r := Restart(s, works, configured);
            && (r.up <==> forall slot :: slot in [EmbedderSlot, VectorStoreSlot, PersistenceSlot] ==>
                  Lookup(s.regActive, slot) == "" || (slot in works && works[slot]))
            && (r.up ==> forall slot :: slot in [EmbedderSlot, VectorStoreSlot, PersistenceSlot] ==>
                  && Lookup(r.active, slot) == Lookup(s.regActive, slot)
                  && Installed(r, slot) == ImplOf(Lookup(s.regActive, slot)))
  {
    RestartServes(s, works, configured);
    RestartKeepsInv(s, works, configured);
    var r := Restart(s, works, configured);
    forall slot ensures slot in [EmbedderSlot, VectorStoreSlot, PersistenceSlot] <==> StateBearing(slot) {}
    if r.up {
      forall slot | StateBearing(slot) ensures Installed(r, slot) == ImplOf(Lookup(s.regActive, slot)) {
        assert Lookup(r.active, slot) == Lookup(r.regActive, slot);
      }
    }
  }
}
