/** The plugin control plane: a registry of installed plugins, the selection per slot, and
    the one path by which a slot changes its implementation. Any step may fail. */
module PluginSwitch {
  import opened Entries
  import opened Lifecycle

  datatype Impl = Builtin | Adapter(id: Id)

  datatype State = State(
    recs: map<Id, Record>,
    regActive: map<Slot, Id>,      // the registry's selection
    active: map<Slot, Id>,         // the manager's selection; "" or absent is the built-in
    impl: map<Slot, Impl>,         // what is installed behind each slot
    threshold: real,
    up: bool)                      // the process is running

  function Lookup(m: map<Slot, Id>, slot: Slot): Id {
    if slot in m then m[slot] else ""
  }

  function ImplOf(id: Id): Impl {
    if id == "" then Builtin else Adapter(id)
  }

  function Installed(s: State, slot: Slot): Impl {
    if slot in s.impl then s.impl[slot] else Builtin
  }

  // ---- registry updates ------------------------------------------------------------------

  function Force(s: State, id: Id, to: Stage): State {
    if id in s.recs then s.(recs := s.recs[id := s.recs[id].(stage := to)]) else s
  }

  predicate CanMove(s: State, id: Id, to: Stage) {
    id in s.recs && ValidTransition(s.recs[id].stage, to)
  }

  /** `setState`, its error ignored. */
  function TryMove(s: State, id: Id, to: Stage): State {
    if CanMove(s, id, to) then Force(s, id, to) else s
  }

  // ---- switching a slot ---------------------------------------------------------------------

  datatype Mode = Activate | Deactivate | Rollback

  /** A plan may fail, or wait for the administrator to say what becomes of the cached state. */
  datatype Plan =
    | PlanFails
    | PlanWaits
    | Proceed(gate: bool, forceMiss: bool, metricChanged: bool)

  datatype ExecFault = NoExecFault | PauseFails | MigrateFails(needsConfirmation: bool) | SwapFails | AfterFails

  /** What the environment does during one switch. */
  datatype Env = Env(
    conf: Option<real>,      // threshold confirmed by the administrator
    prepareFails: bool,      // secrets, adapter or health of the candidate
    plan: Plan,
    exec: ExecFault,
    selectFails: bool,       // SetActive or ClearActive
    updateNewFails: bool,    // record updates after the selection has been written
    updateOldFails: bool,
    stages: StageFaults)

  /** Which updates of the stage shown for the plugin fail. */
  datatype StageFaults = StageFaults(first: bool, migrating: bool, activating: bool, closing: bool)

  datatype Switching = Switching(actor: Id, mode: Mode, slot: Slot, target: Id, leaving: Id, before: Stage,
      conf: Option<real>, metric: bool)

  function Target(rec: Record, id: Id, mode: Mode): Id {
    match mode case Activate => id case Deactivate => "" case Rollback => rec.prev
  }

  function Begin(s: State, id: Id, mode: Mode, env: Env): Switching
    requires id in s.recs
  {
    var rec := s.recs[id];
    var target := Target(rec, id, mode);
    Switching(id, mode, SlotOf(rec.typ), target, Lookup(s.active, SlotOf(rec.typ)), rec.stage,
              // leaving a plugin that changed the threshold puts the old one back
              if mode != Activate && env.conf.None? then rec.prevThreshold else env.conf,
              target in s.recs && s.recs[target].typ == SimilarityMetric)
  }

  /** The guards of Activate, Deactivate and Rollback and of the start of the switch. */
  predicate MayBegin(s: State, id: Id, mode: Mode) {
    && id in s.recs
    && (match mode
        case Activate =>
          && (var r := s.recs[id];
              r.stage.Verified? || r.stage.Inactive? || r.stage.RolledBack? || (r.stage.Failed? && r.passed))
          && Lookup(s.active, SlotOf(s.recs[id].typ)) != id && CanMove(s, id, Checking)
        case Deactivate => s.recs[id].active
        case Rollback =>
          s.recs[id].active && (s.recs[id].prev != "" ==> s.recs[id].prev in s.recs) && CanMove(s, id, RollingBack))
  }

  /** The switch gets past the guards and its first stage update. */
  predicate Starts(s: State, id: Id, mode: Mode, env: Env) {
    MayBegin(s, id, mode) && (mode == Deactivate || !env.stages.first)
  }

  /** The metric changes: only the plan of a vector store looks at it, and to a plugin that is
      a metric it always does. */
  predicate MetricChanges(w: Switching, env: Env) {
    w.slot == VectorStoreSlot && env.plan.Proceed? && (w.metric || env.plan.metricChanged)
  }

  /** The threshold a plan asks for: only a changed metric asks for one. */
  function PlanThreshold(w: Switching, env: Env): Option<real> {
    if MetricChanges(w, env) then w.conf else None
  }

  /** A metric change without a confirmed threshold waits for the administrator. */
  predicate NeedsConfirmation(w: Switching, env: Env) {
    MetricChanges(w, env) && w.conf.None?
  }

  predicate PlanRefused(w: Switching, env: Env) {
    env.plan.PlanFails? || (MetricChanges(w, env) && w.conf.Some? && w.conf.value < 0.0)
  }

  /** `failed`: the actor's record after a switch that did not happen. */
  function Abandon(s: State, w: Switching, confirmation: bool): State {
    if confirmation then Force(s, w.actor, w.before)
    else if w.mode == Rollback then Force(s, w.actor, Active)
    else Force(s, w.actor, Failed)
  }

  /** The update that `failed` makes may fail as well. */
  function Close(s: State, w: Switching, confirmation: bool, env: Env): State {
    if env.stages.closing then s else Abandon(s, w, confirmation)
  }

  function Preparing(s: State, w: Switching): State {
    match w.mode
    case Activate => Force(s, w.actor, Checking)
    case Rollback => Force(s, w.actor, RollingBack)
    case Deactivate => s
  }

  /** A failed execute, with whether it waits for the administrator. */
  predicate ExecuteFails(env: Env) { !env.exec.NoExecFault? }

  predicate ExecuteWaits(env: Env) { env.exec.MigrateFails? && env.exec.needsConfirmation }

  function Install(s: State, slot: Slot, impl: Impl): State {
    s.(impl := s.impl[slot := impl])
  }

  /** The threshold an activation replaces, for a rollback to put back. */
  function Replaced(w: Switching, env: Env, prevThreshold: real): Option<real> {
    if w.mode == Activate && PlanThreshold(w, env).Some? then Some(prevThreshold) else None
  }

  /** The stage of the plugin that a switch leaves. */
  function LeftStage(mode: Mode): Stage {
    if mode == Rollback then RolledBack else Inactive
  }

  /** `commit`: the state and whether it succeeded. */
  function Commit(s: State, w: Switching, env: Env, prevThreshold: real): (State, bool) {
    if env.selectFails then (s, false)
    else
      var s1 := s.(regActive := if w.target == "" then s.regActive - {w.slot} else s.regActive[w.slot := w.target]);
      if w.target != "" && (env.updateNewFails || w.target !in s1.recs) then (s1, false)
      else
        var s2 := if w.target == "" then s1
                  else s1.(recs := s1.recs[w.target :=
                    s1.recs[w.target].(stage := Active, active := true,
                      prev := if w.mode == Activate then w.leaving else "",
                      prevThreshold := Replaced(w, env, prevThreshold),
                      // whether or not the plan has set it
                      confirmed := w.conf)]);
        var s3 := if w.leaving == "" || w.leaving == w.target || env.updateOldFails || w.leaving !in s2.recs then s2
                  else s2.(recs := s2.recs[w.leaving :=
                    s2.recs[w.leaving].(active := false, stage := LeftStage(w.mode))]);
        (s3.(active := s3.active[w.slot := w.target]), true)
  }

  function Announced(s: State, w: Switching, env: Env): State {
    if w.mode == Deactivate || env.stages.activating then s else TryMove(s, w.actor, Activating)
  }

  /** A switch that ends before execute, with whether it waits for the administrator. */
  function EarlyEnd(w: Switching, env: Env): Option<bool> {
    if w.target != "" && env.prepareFails then Some(false)
    else if env.plan.PlanWaits? || NeedsConfirmation(w, env) then Some(true)
    else if PlanRefused(w, env) then Some(false)
    // only an activation minds that its stage cannot be updated to migrating
    else if env.plan.gate && w.mode == Activate && env.stages.migrating then Some(false)
    else None
  }

  /** The record stages shown while state is migrated and the plugin activated. */
  function MigratingStage(s: State, w: Switching, env: Env): State {
    if env.plan.Proceed? && env.plan.gate && !env.stages.migrating then TryMove(Preparing(s, w), w.actor, Migrating)
    else Preparing(s, w)
  }

  /** From the swap on: commit, or put the old implementation back. */
  function Finish(t: State, w: Switching, env: Env): (State, bool) {
    var (u, committed) := Commit(Install(Announced(t, w, env), w.slot, ImplOf(w.target)), w, env, t.threshold);
    if !committed then (Close(Install(u, w.slot, Installed(t, w.slot)), w, false, env), false)
    else (match PlanThreshold(w, env) case None => u case Some(threshold) => u.(threshold := threshold), true)
  }

  /** From the migration on. */
  function CarryOut(t: State, w: Switching, env: Env): (State, bool) {
    if ExecuteFails(env) then (Close(t, w, ExecuteWaits(env), env), false) else Finish(t, w, env)
  }

  /** Activate, Deactivate or Rollback of plugin `id`: the state and whether it happened. */
  function Switch(s: State, id: Id, mode: Mode, env: Env): (State, bool) {
    if !Starts(s, id, mode, env) then (s, false)
    else
      var w := Begin(s, id, mode, env);
      match EarlyEnd(w, env)
      case Some(waits) => (Close(Preparing(s, w), w, waits, env), false)
      case None => CarryOut(MigratingStage(s, w, env), w, env)
  }

  // ---- the other operations --------------------------------------------------------------------

  predicate MayDelete(s: State, id: Id) {
    && id in s.recs && !s.recs[id].active && !InProgress(s.recs[id].stage)
    && forall o :: o in s.recs && s.recs[o].active ==> s.recs[o].prev != id
  }

  function Delete(s: State, id: Id): State {
    if MayDelete(s, id) then s.(recs := s.recs - {id}) else s
  }

  const SLOTS := [LLMSlot, EmbedderSlot, VectorStoreSlot, PersistenceSlot, QueueSlot, PolicySlot]

  /** These may not silently fall back to the built-in. */
  predicate StateBearing(slot: Slot) {
    slot in {EmbedderSlot, VectorStoreSlot, PersistenceSlot}
  }

  /** The threshold that restoring `rec` into a slot sets. */
  function RestoredThreshold(slot: Slot, rec: Record, now: real): real {
    if slot == VectorStoreSlot && rec.confirmed.Some? then rec.confirmed.value else now
  }

  /** Restore of one slot at startup; false aborts the startup. */
  function RestoreSlot(s: State, slot: Slot, works: bool): (State, bool) {
    var id := Lookup(s.regActive, slot);
    if id == "" then (s, true)
    else if id !in s.recs then (s.(regActive := s.regActive - {slot}), true)
    else if works then
      (Install(s, slot, Adapter(id)).(active := s.active[slot := id],
          threshold := RestoredThreshold(slot, s.recs[id], s.threshold)), true)
    else if StateBearing(slot) then (s, false)
    else
      var failed := s.recs[id].(active := false, stage := Failed);
      (s.(recs := s.recs[id := failed], regActive := s.regActive - {slot}), true)
  }

  function RestoreFrom(s: State, slots: seq<Slot>, works: map<Slot, bool>): (State, bool)
    decreases |slots|
  {
    if slots == [] then (s, true)
    else
      var (t, ok) := RestoreSlot(s, slots[0], slots[0] in works && works[slots[0]]);
      if ok then RestoreFrom(t, slots[1..], works) else (t, false)
  }

  /** What a restart begins with: no selection in memory, and the threshold of the configuration. */
  function Forgotten(s: State, configured: real): State {
    s.(active := map[], impl := map[], threshold := configured, up := false)
  }

  /** A restart forgets the selection in memory and restores it from the registry. */
  function Restart(s: State, works: map<Slot, bool>, configured: real): State {
    var (t, ok) := RestoreFrom(Forgotten(s, configured), SLOTS, works);
    t.(up := ok)
  }

  datatype Op =
    | InstallOp(id: Id, typ: PluginType, confirmed: Option<real>)
    | PipelineOp(id: Id, supply: InstallMode, faults: Faults)
    | SwitchOp(id: Id, mode: Mode, env: Env)
    | DeleteOp(id: Id)
    | RestartOp(works: map<Slot, bool>, configured: real)

  predicate Allowed(s: State, op: Op) {
    match op
    case InstallOp(id, _, _) => s.up && id != "" && id !in s.recs
    case PipelineOp(id, _, _) => s.up && id in s.recs && s.recs[id].stage == Draft
    case SwitchOp(_, _, _) => s.up
    case DeleteOp(_) => s.up
    case RestartOp(_, _) => true
  }

  function Step(s: State, op: Op): State
    requires Allowed(s, op)
  {
    match op
    case InstallOp(id, typ, confirmed) =>
      s.(recs := s.recs[id := Record(typ, Draft, false, "", None, false, confirmed)])
    case PipelineOp(id, mode, faults) => s.(recs := s.recs[id := Pipeline(s.recs[id], mode, faults)])
    case SwitchOp(id, mode, env) => Switch(s, id, mode, env).0
    case DeleteOp(id) => Delete(s, id)
    case RestartOp(works, configured) => Restart(s, works, configured)
  }

  // ---- the manager ------------------------------------------------------------------------------

  class Manager {
    var recs: map<Id, Record>
    var regActive: map<Slot, Id>
    var active: map<Slot, Id>
    var impl: map<Slot, Impl>
    var threshold: real

    ghost predicate Valid()
      reads this
    {
      forall slot: Slot :: slot in impl
    }

    function Now(): State
      reads this
    {
      State(recs, regActive, active, impl, threshold, true)
    }

    constructor (threshold: real)
      ensures Valid() && recs == map[] && regActive == map[] && active == map[]
      ensures this.threshold == threshold && forall slot :: Installed(Now(), slot) == Builtin
    {
      SlotsComplete();
      recs, regActive, active, this.threshold := map[], map[], map[], threshold;
      impl := map slot | slot in SLOTS :: Builtin;
    }

    method SetStage(id: Id, to: Stage)
      modifies `recs
      ensures Now() == Force(old(Now()), id, to)
    {
      if id in recs {
        recs := recs[id := recs[id].(stage := to)];
      }
    }

    method TryStage(id: Id, to: Stage)
      modifies `recs
      ensures Now() == TryMove(old(Now()), id, to)
    {
      if id in recs && ValidTransition(recs[id].stage, to) {
        SetStage(id, to);
      }
    }

    method GiveUp(w: Switching, confirmation: bool, env: Env)
      modifies `recs
      ensures Now() == Close(old(Now()), w, confirmation, env)
    {
      if env.stages.closing {
        return;
      }
      if confirmation {
        SetStage(w.actor, w.before);
      } else if w.mode == Rollback {
        SetStage(w.actor, Active);
      } else {
        SetStage(w.actor, Failed);
      }
    }

    /** Pause writes, answer queries as misses while state is inconsistent, migrate, swap and
        check; on failure the previous implementation is installed, and in either case the
        threshold is back at what it was. */
    method Execute(w: Switching, env: Env) returns (prev: Impl, ok: bool)
      requires Valid() && env.plan.Proceed?
      modifies `impl, `threshold
      ensures Valid() && prev == Installed(old(Now()), w.slot) && ok == !ExecuteFails(env)
      ensures Now() == if ok then Install(old(Now()), w.slot, ImplOf(w.target)) else old(Now())
    {
      prev := impl[w.slot];
      if env.plan.gate && env.exec == PauseFails {
        return prev, false;
      }
      var saved := threshold;
      if env.plan.forceMiss {
        threshold := -1.0;
      }
      ok := true;
      if env.exec == PauseFails || env.exec.MigrateFails? || env.exec == SwapFails {
        ok := false;
      } else {
        impl := impl[w.slot := ImplOf(w.target)];
        if env.exec == AfterFails {
          impl := impl[w.slot := prev];
          ok := false;
        }
      }
      threshold := saved;
      if !ok {
        assert impl == old(impl);
      }
    }

    /** Write the selection, then the new record, then the old one, then memory. */
    method CommitSwitch(w: Switching, env: Env, prevThreshold: real) returns (ok: bool)
      modifies `recs, `regActive, `active
      ensures (Now(), ok) == Commit(old(Now()), w, env, prevThreshold)
    {
      if env.selectFails {
        return false;
      }
      regActive := if w.target == "" then regActive - {w.slot} else regActive[w.slot := w.target];
      if w.target != "" {
        if env.updateNewFails || w.target !in recs {
          return false;
        }
        var r := recs[w.target].(stage := Active, active := true, confirmed := w.conf);
        if w.mode == Activate {
          r := r.(prev := w.leaving, prevThreshold := Replaced(w, env, prevThreshold));
        } else {
          r := r.(prev := "", prevThreshold := None);
        }
        recs := recs[w.target := r];
      }
      if w.leaving != "" && w.leaving != w.target && !env.updateOldFails && w.leaving in recs {
        recs := recs[w.leaving := recs[w.leaving].(active := false, stage := LeftStage(w.mode))];
      }
      active := active[w.slot := w.target];
      return true;
    }

    /** Build the candidate, check its health and plan the switch. */
    method PrepareCandidate(w: Switching, env: Env) returns (ok: bool)
      modifies `recs
      ensures ok <==> EarlyEnd(w, env).None?
      ensures Now() == match EarlyEnd(w, env)
                       case None => old(Now())
                       case Some(waits) => Close(old(Now()), w, waits, env)
    {
      if w.target != "" && env.prepareFails {
        GiveUp(w, false, env);
        return false;
      }
      if env.plan.PlanWaits? || NeedsConfirmation(w, env) {
        GiveUp(w, true, env);
        return false;
      }
      if PlanRefused(w, env) {
        GiveUp(w, false, env);
        return false;
      }
      if env.plan.gate && w.mode == Activate && env.stages.migrating {
        GiveUp(w, false, env);
        return false;
      }
      return true;
    }

    /** The single path by which a slot changes its implementation. */
    method SwitchSlot(id: Id, mode: Mode, env: Env) returns (ok: bool)
      requires Valid()
      modifies this
      ensures Valid() && (Now(), ok) == Switch(old(Now()), id, mode, env)
    {
      if !MayBegin(Now(), id, mode) {
        return false;
      }
      var w := Begin(Now(), id, mode, env);
      if mode != Deactivate {
        if env.stages.first {
          return false;
        }
        SetStage(id, if mode == Activate then Checking else RollingBack);
      }
      assert Now() == Preparing(old(Now()), w);
      ok := PrepareCandidate(w, env);
      if ok {
        ok := MigrateAndSwitch(w, env, old(Now()));
      }
    }

    /** After the preparations of a switch in state `s`. */
    method MigrateAndSwitch(w: Switching, env: Env, ghost s: State) returns (ok: bool)
      requires Valid() && Now() == Preparing(s, w) && EarlyEnd(w, env).None?
      modifies this
      ensures Valid() && (Now(), ok) == CarryOut(MigratingStage(s, w, env), w, env)
    {
      var prevThreshold := threshold;
      if env.plan.gate && !env.stages.migrating {
        TryStage(w.actor, Migrating);
      }
      ghost var t := Now();
      var prev, executed := Execute(w, env);
      if !executed {
        GiveUp(w, ExecuteWaits(env), env);
        return false;
      }
      ok := FinishSwitch(w, env, prev, prevThreshold, t);
    }

    /** After a successful Execute from the state `t`: commit, or swap back. */
    method FinishSwitch(w: Switching, env: Env, prev: Impl, prevThreshold: real, ghost t: State) returns (ok: bool)
      requires Valid() && Now() == Install(t, w.slot, ImplOf(w.target))
      requires prev == Installed(t, w.slot) && prevThreshold == t.threshold
      modifies this
      ensures Valid() && (Now(), ok) == Finish(t, w, env)
    {
      if w.mode != Deactivate && !env.stages.activating {
        TryStage(w.actor, Activating);
      }
      assert Now() == Install(Announced(t, w, env), w.slot, ImplOf(w.target));
      var committed := CommitSwitch(w, env, prevThreshold);
      if !committed {
        impl := impl[w.slot := prev];
        GiveUp(w, false, env);
        return false;
      }
      if PlanThreshold(w, env).Some? {
        threshold := PlanThreshold(w, env).value;
      }
      return true;
    }

    /** Delete an inactive plugin that no active one would roll back to. */
    method DeletePlugin(id: Id) returns (ok: bool)
      requires Valid()
      modifies `recs
      ensures Valid() && Now() == Delete(old(Now()), id) && (ok <==> MayDelete(old(Now()), id))
    {
      if id !in recs || recs[id].active || InProgress(recs[id].stage) {
        return false;
      }
      var todo := recs.Keys;
      while todo != {}
        invariant todo <= recs.Keys && recs == old(recs)
        invariant forall o :: o in recs && o !in todo && recs[o].active ==> recs[o].prev != id
        decreases |todo|
      {
        var o :| o in todo;
        todo := todo - {o};
        if recs[o].active && recs[o].prev == id {
          return false;
        }
      }
      recs := recs - {id};
      return true;
    }
  }

  // ---- the invariant -------------------------------------------------------------------------------

  /** A slot's selection names an active record of that slot. */
  ghost predicate SelectionSound(s: State) {
    forall slot :: Lookup(s.regActive, slot) != "" ==>
      var a := Lookup(s.regActive, slot);
      a in s.recs && s.recs[a].active && SlotOf(s.recs[a].typ) == slot
  }

  /** An active record is its slot's selection, has passed verification, and can go back to
      the built-in or to a plugin of the same slot that still exists and has passed too. */
  ghost predicate ActiveSound(s: State) {
    forall id :: id in s.recs && s.recs[id].active ==>
      var r := s.recs[id];
      && Lookup(s.regActive, SlotOf(r.typ)) == id
      && r.passed
      && (r.prev != "" ==> r.prev != id && r.prev in s.recs && s.recs[r.prev].passed
                           && SlotOf(s.recs[r.prev].typ) == SlotOf(r.typ))
  }

  ghost predicate StagesSound(s: State) {
    && "" !in s.recs
    && forall id :: id in s.recs ==>
         (Proven(s.recs[id].stage) ==> s.recs[id].passed)
         && (s.recs[id].stage == Draft ==> !s.recs[id].active && !s.recs[id].passed)
  }

  /** Memory agrees with the registry about every slot. */
  ghost predicate Mirrored(s: State) {
    forall slot :: Lookup(s.active, slot) == Lookup(s.regActive, slot)
                   && Installed(s, slot) == ImplOf(Lookup(s.regActive, slot))
  }

  ghost predicate RegistrySound(s: State) {
    SelectionSound(s) && ActiveSound(s) && StagesSound(s)
  }

  ghost predicate Inv(s: State) {
    RegistrySound(s) && (s.up ==> Mirrored(s))
  }

  lemma ForceKeepsInv(s: State, id: Id, to: Stage)
    requires Inv(s) && to != Draft
    requires id in s.recs && Proven(to) ==> s.recs[id].passed
    ensures Inv(Force(s, id, to))
  {}

  /** What Begin settles, given the guards. */
  ghost predicate Consistent(s: State, w: Switching) {
    && w.actor in s.recs && s.recs[w.actor].passed
    && w.slot == SlotOf(s.recs[w.actor].typ) && w.leaving == Lookup(s.active, w.slot)
    && (w.target != "" ==> w.target in s.recs && s.recs[w.target].passed
                           && SlotOf(s.recs[w.target].typ) == w.slot && w.target != w.leaving)
    && (w.mode == Activate ==> w.target == w.actor)
    && (w.mode != Activate ==> w.leaving == w.actor)
    && (Proven(w.before) ==> s.recs[w.actor].passed) && w.before != Draft
  }

  lemma BeginIsConsistent(s: State, id: Id, mode: Mode, env: Env)
    requires Inv(s) && s.up && MayBegin(s, id, mode)
    ensures Consistent(s, Begin(s, id, mode, env))
  {
    assert Lookup(s.active, SlotOf(s.recs[id].typ)) == Lookup(s.regActive, SlotOf(s.recs[id].typ));
  }

  /** Moving the actor's stage about keeps everything else. */
  ghost predicate OnlyStage(s: State, t: State, id: Id) {
    && t.regActive == s.regActive && t.active == s.active && t.impl == s.impl
    && t.threshold == s.threshold && t.up == s.up && t.recs.Keys == s.recs.Keys
    && forall r :: r in s.recs ==> t.recs[r] == if r == id then s.recs[r].(stage := t.recs[r].stage) else s.recs[r]
  }

  lemma ForceOnlyStage(s: State, id: Id, to: Stage)
    ensures OnlyStage(s, Force(s, id, to), id)
  {}

  /** A state reached by moving only the actor's stage, still sound. */
  ghost predicate Staged(s: State, t: State, w: Switching) {
    OnlyStage(s, t, w.actor) && Inv(t) && Consistent(t, w)
  }

  lemma StageTo(s: State, t: State, w: Switching, to: Stage)
    requires Staged(s, t, w) && to != Draft
    ensures Staged(s, Force(t, w.actor, to), w)
  {
    ForceKeepsInv(t, w.actor, to);
    ForceOnlyStage(t, w.actor, to);
  }

  lemma PrepareStages(s: State, w: Switching)
    requires Inv(s) && Consistent(s, w)
    ensures Staged(s, Preparing(s, w), w)
  {
    assert Staged(s, s, w);
    match w.mode {
      case Activate => StageTo(s, s, w, Checking);
      case Rollback => StageTo(s, s, w, RollingBack);
      case Deactivate =>
    }
  }

  lemma MigrateStages(s: State, w: Switching, env: Env)
    requires Inv(s) && Consistent(s, w)
    ensures Staged(s, MigratingStage(s, w, env), w)
  {
    PrepareStages(s, w);
    StageTo(s, Preparing(s, w), w, Migrating);
  }

  lemma AbandonStages(s: State, t: State, w: Switching, confirmation: bool)
    requires Staged(s, t, w)
    ensures Staged(s, Abandon(t, w, confirmation), w)
  {
    if confirmation {
      StageTo(s, t, w, w.before);
    } else if w.mode == Rollback {
      StageTo(s, t, w, Active);
    } else {
      StageTo(s, t, w, Failed);
    }
  }

  lemma CloseStages(s: State, t: State, w: Switching, confirmation: bool, env: Env)
    requires Staged(s, t, w)
    ensures Staged(s, Close(t, w, confirmation, env), w)
  {
    AbandonStages(s, t, w, confirmation);
  }

  lemma AnnounceStages(s: State, t: State, w: Switching, env: Env)
    requires Staged(s, t, w)
    ensures Staged(s, Announced(t, w, env), w)
  {
    StageTo(s, t, w, Activating);
  }

  // ---- commit -----------------------------------------------------------------------------------------

  /** Everything up to the registry's selection worked. */
  predicate ReachesCommit(s: State, id: Id, mode: Mode, env: Env) {
    Starts(s, id, mode, env) && EarlyEnd(Begin(s, id, mode, env), env).None? && !ExecuteFails(env) && !env.selectFails
  }

  /** A record update fails after the selection has been written: that of the new plugin,
      which undoes the swap but not the selection, or that of the old one, ignored. */
  predicate Torn(s: State, id: Id, mode: Mode, env: Env) {
    && ReachesCommit(s, id, mode, env)
    && var w := Begin(s, id, mode, env);
    (w.target != "" && env.updateNewFails) || (w.leaving != "" && env.updateOldFails)
  }

  lemma CommitLookups(t: State, w: Switching, env: Env, prevThreshold: real)
    requires Consistent(t, w)
    requires !env.selectFails && !(w.target != "" && env.updateNewFails)
    ensures var (u, ok) := Commit(Install(t, w.slot, ImplOf(w.target)), w, env, prevThreshold);
            && ok
            && (forall slot ::
                  Lookup(u.regActive, slot) == if slot == w.slot then w.target else Lookup(t.regActive, slot))
            && (forall slot :: Lookup(u.active, slot) == if slot == w.slot then w.target else Lookup(t.active, slot))
            && (forall slot :: Installed(u, slot) == if slot == w.slot then ImplOf(w.target) else Installed(t, slot))
  {
    CommitWrites(t, w, env, prevThreshold);
    WrittenLookups(t, Commit(Install(t, w.slot, ImplOf(w.target)), w, env, prevThreshold).0, w);
  }

  /** What a commit writes besides records. */
  predicate Written(t: State, u: State, w: Switching) {
    && u.regActive == (if w.target == "" then t.regActive - {w.slot} else t.regActive[w.slot := w.target])
    && u.active == t.active[w.slot := w.target] && u.impl == t.impl[w.slot := ImplOf(w.target)]
  }

  lemma CommitWrites(t: State, w: Switching, env: Env, prevThreshold: real)
    requires w.target != "" ==> w.target in t.recs
    requires !env.selectFails && !(w.target != "" && env.updateNewFails)
    ensures var (u, ok) := Commit(Install(t, w.slot, ImplOf(w.target)), w, env, prevThreshold);
            ok && Written(t, u, w)
  {}

  lemma WrittenLookups(t: State, u: State, w: Switching)
    requires Written(t, u, w)
    ensures forall slot ::
              Lookup(u.regActive, slot) == if slot == w.slot then w.target else Lookup(t.regActive, slot)
    ensures forall slot :: Lookup(u.active, slot) == if slot == w.slot then w.target else Lookup(t.active, slot)
    ensures forall slot :: Installed(u, slot) == if slot == w.slot then ImplOf(w.target) else Installed(t, slot)
  {}

  /** Nothing goes wrong from the selection on. */
  predicate CommitWorks(w: Switching, env: Env) {
    !env.selectFails && !(w.target != "" && env.updateNewFails) && !(w.leaving != "" && env.updateOldFails)
  }

  function Committed(t: State, w: Switching, env: Env, prevThreshold: real): State {
    Commit(Install(t, w.slot, ImplOf(w.target)), w, env, prevThreshold).0
  }

  lemma CommitSelects(t: State, w: Switching, env: Env, prevThreshold: real)
    requires Inv(t) && t.up && Consistent(t, w) && CommitWorks(w, env)
    ensures SelectionSound(Committed(t, w, env, prevThreshold)) && Mirrored(Committed(t, w, env, prevThreshold))
  {
    CommitLookups(t, w, env, prevThreshold);
    CommitMoves(t, w, env, prevThreshold);
    MovedSelection(t, Committed(t, w, env, prevThreshold), w);
    MovedMirrored(t, Committed(t, w, env, prevThreshold), w);
  }

  lemma MovedSelection(t: State, u: State, w: Switching)
    requires Inv(t) && t.up && Consistent(t, w) && Moved(t, u, w)
    requires forall slot :: Lookup(u.regActive, slot) == if slot == w.slot then w.target else Lookup(t.regActive, slot)
    ensures SelectionSound(u)
  {
    assert Lookup(t.regActive, w.slot) == w.leaving by { assert Lookup(t.active, w.slot) == w.leaving; }
    forall slot | Lookup(u.regActive, slot) != ""
      ensures Lookup(u.regActive, slot) in u.recs && u.recs[Lookup(u.regActive, slot)].active
              && SlotOf(u.recs[Lookup(u.regActive, slot)].typ) == slot
    {
      var id := Lookup(u.regActive, slot);
      assert id in t.recs;
      assert MovedRecord(t.recs[id], u.recs[id], id, w);
      if slot != w.slot && w.leaving != "" { SelectedOnce(t, slot, w.slot); }
    }
  }

  lemma MovedMirrored(t: State, u: State, w: Switching)
    requires Mirrored(t)
    requires forall slot :: Lookup(u.regActive, slot) == if slot == w.slot then w.target else Lookup(t.regActive, slot)
    requires forall slot :: Lookup(u.active, slot) == if slot == w.slot then w.target else Lookup(t.active, slot)
    requires forall slot :: Installed(u, slot) == if slot == w.slot then ImplOf(w.target) else Installed(t, slot)
    ensures Mirrored(u)
  {}

  /** What has become of the records. */
  ghost predicate Moved(t: State, u: State, w: Switching) {
    && u.recs.Keys == t.recs.Keys
    && forall id :: id in t.recs ==> MovedRecord(t.recs[id], u.recs[id], id, w)
  }

  predicate MovedRecord(r: Record, r': Record, id: Id, w: Switching) {
    && r'.typ == r.typ && r'.passed == r.passed
    && if id == w.target then r'.active && r'.stage == Active && r'.prev == if w.mode == Activate then w.leaving else ""
       else if id == w.leaving then !r'.active && r'.stage == LeftStage(w.mode)
       else r' == r
  }

  lemma CommitMoves(t: State, w: Switching, env: Env, prevThreshold: real)
    requires Consistent(t, w) && CommitWorks(w, env) && "" !in t.recs
    ensures Moved(t, Committed(t, w, env, prevThreshold), w)
  {}

  /** The new plugin is the only active one of its slot, and the others are as they were. */
  lemma MovedActive(t: State, u: State, w: Switching)
    requires Inv(t) && t.up && Consistent(t, w) && Moved(t, u, w)
    requires forall slot :: Lookup(u.regActive, slot) == if slot == w.slot then w.target else Lookup(t.regActive, slot)
    ensures ActiveSound(u)
  {
    assert Lookup(t.regActive, w.slot) == w.leaving by { assert Lookup(t.active, w.slot) == w.leaving; }
    forall id | id in u.recs && u.recs[id].active
      ensures Lookup(u.regActive, SlotOf(u.recs[id].typ)) == id && u.recs[id].passed
      ensures GoesBack(u, id)
    {
      assert MovedRecord(t.recs[id], u.recs[id], id, w);
      if id == w.target { TargetGoesBack(t, u, w); } else { OtherGoesBack(t, u, w, id); }
    }
  }

  /** The plugin a rollback of `id` goes to still exists and has passed. */
  ghost predicate GoesBack(u: State, id: Id)
    requires id in u.recs
  {
    var r := u.recs[id];
    r.prev != "" ==> r.prev != id && r.prev in u.recs && u.recs[r.prev].passed
                     && SlotOf(u.recs[r.prev].typ) == SlotOf(r.typ)
  }

  lemma TargetGoesBack(t: State, u: State, w: Switching)
    requires Inv(t) && Consistent(t, w) && Moved(t, u, w) && w.target in u.recs
    requires Lookup(t.regActive, w.slot) == w.leaving
    ensures GoesBack(u, w.target)
  {
    assert MovedRecord(t.recs[w.target], u.recs[w.target], w.target, w);
    if u.recs[w.target].prev != "" {
      assert w.leaving in t.recs && t.recs[w.leaving].active;
      assert MovedRecord(t.recs[w.leaving], u.recs[w.leaving], w.leaving, w);
    }
  }

  lemma OtherGoesBack(t: State, u: State, w: Switching, id: Id)
    requires Inv(t) && Consistent(t, w) && Moved(t, u, w) && id in u.recs && u.recs[id].active && id != w.target
    requires Lookup(t.regActive, w.slot) == w.leaving
    ensures GoesBack(u, id) && u.recs[id] == t.recs[id] && t.recs[id].active && SlotOf(t.recs[id].typ) != w.slot
  {
    assert MovedRecord(t.recs[id], u.recs[id], id, w);
    var p := t.recs[id].prev;
    if p != "" { assert p in t.recs && MovedRecord(t.recs[p], u.recs[p], p, w); }
  }

  lemma MovedStages(t: State, u: State, w: Switching)
    requires Inv(t) && t.up && Consistent(t, w) && Moved(t, u, w)
    ensures StagesSound(u)
  {
    assert Lookup(t.regActive, w.slot) == w.leaving by { assert Lookup(t.active, w.slot) == w.leaving; }
    forall id | id in u.recs
      ensures Proven(u.recs[id].stage) ==> u.recs[id].passed
      ensures u.recs[id].stage == Draft ==> !u.recs[id].active && !u.recs[id].passed
    {
      assert MovedRecord(t.recs[id], u.recs[id], id, w);
      if id == w.leaving { assert t.recs[id].active; }
    }
  }

  lemma CommitActivates(t: State, w: Switching, env: Env, prevThreshold: real)
    requires Inv(t) && t.up && Consistent(t, w) && CommitWorks(w, env)
    ensures ActiveSound(Committed(t, w, env, prevThreshold)) && StagesSound(Committed(t, w, env, prevThreshold))
  {
    var u := Committed(t, w, env, prevThreshold);
    CommitLookups(t, w, env, prevThreshold);
    CommitMoves(t, w, env, prevThreshold);
    MovedActive(t, u, w);
    MovedStages(t, u, w);
  }

  lemma CommitKeepsInv(t: State, w: Switching, env: Env, prevThreshold: real)
    requires Inv(t) && t.up && Consistent(t, w) && CommitWorks(w, env)
    ensures Inv(Committed(t, w, env, prevThreshold)) && Committed(t, w, env, prevThreshold).up
    ensures Committed(t, w, env, prevThreshold).threshold == t.threshold
    ensures w.target != "" ==>
              w.target in Committed(t, w, env, prevThreshold).recs
              && Committed(t, w, env, prevThreshold).recs[w.target].prev
                  == (if w.mode == Activate then w.leaving else "")
              && Committed(t, w, env, prevThreshold).recs[w.target].prevThreshold == Replaced(w, env, prevThreshold)
              && Committed(t, w, env, prevThreshold).recs[w.target].confirmed == w.conf
  {
    CommitSelects(t, w, env, prevThreshold);
    CommitActivates(t, w, env, prevThreshold);
  }

  lemma CommitTorn(t: State, w: Switching, env: Env, prevThreshold: real)
    requires Inv(t) && t.up && Consistent(t, w) && !env.selectFails
    requires (w.target != "" && env.updateNewFails) || (w.leaving != "" && env.updateOldFails)
    ensures var (u, ok) := Commit(Install(t, w.slot, ImplOf(w.target)), w, env, prevThreshold);
            if ok then !ActiveSound(u)
            else Lookup(u.regActive, w.slot) == w.target && Lookup(u.active, w.slot) == w.leaving && u.up
  {
    var (u, ok) := Commit(Install(t, w.slot, ImplOf(w.target)), w, env, prevThreshold);
    assert Lookup(t.regActive, w.slot) == w.leaving;
    if ok {
      assert w.leaving in u.recs && u.recs[w.leaving].active && Lookup(u.regActive, w.slot) == w.target;
    }
  }

  // ---- a switch as a whole --------------------------------------------------------------------------------

  lemma FinishTorn(t: State, w: Switching, env: Env)
    requires Inv(t) && t.up && Consistent(t, w) && !env.selectFails && !CommitWorks(w, env)
    ensures !Inv(Finish(t, w, env).0)
  {
    var a := Announced(t, w, env);
    AnnounceStages(t, t, w, env);
    CommitTorn(a, w, env, t.threshold);
    var (u, ok) := Commit(Install(a, w.slot, ImplOf(w.target)), w, env, t.threshold);
    if ok {
      assert !ActiveSound(Finish(t, w, env).0);
    } else {
      assert Lookup(Finish(t, w, env).0.regActive, w.slot) != Lookup(Finish(t, w, env).0.active, w.slot);
    }
  }

  /** A commit that fails at the selection leaves everything but the actor's stage. */
  ghost predicate Untouched(s: State, t: State, id: Id) {
    && t.regActive == s.regActive && t.active == s.active && t.threshold == s.threshold && t.up == s.up
    && (forall slot :: Installed(t, slot) == Installed(s, slot))
    && t.recs.Keys == s.recs.Keys
    && forall r :: r in s.recs ==> t.recs[r] == if r == id then s.recs[r].(stage := t.recs[r].stage) else s.recs[r]
  }

  /** Swapping in and back out leaves every slot as it was. */
  lemma SwapUndone(a: State, slot: Slot, impl: Impl)
    requires Inv(a)
    ensures var b := Install(Install(a, slot, impl), slot, Installed(a, slot));
            Inv(b) && Untouched(a, b, "")
  {
    var b := Install(Install(a, slot, impl), slot, Installed(a, slot));
    forall x ensures Installed(b, x) == Installed(a, x) {}
  }

  lemma FinishUnselected(t: State, w: Switching, env: Env)
    requires Inv(t) && t.up && Consistent(t, w) && env.selectFails
    ensures !Finish(t, w, env).1 && Inv(Finish(t, w, env).0) && Untouched(t, Finish(t, w, env).0, w.actor)
  {
    AnnounceStages(t, t, w, env);
    var a := Announced(t, w, env);
    UnselectedCloses(t, a, w, env);
    UntouchedFrom(t, a, Finish(t, w, env).0, w);
  }

  /** The swap is undone and the stage says so. */
  lemma UnselectedCloses(t: State, a: State, w: Switching, env: Env)
    requires Staged(t, a, w)
    ensures var b := Install(Install(a, w.slot, ImplOf(w.target)), w.slot, Installed(t, w.slot));
            Inv(Close(b, w, false, env)) && Untouched(a, Close(b, w, false, env), w.actor)
  {
    SwapUndone(a, w.slot, ImplOf(w.target));
    var b := Install(Install(a, w.slot, ImplOf(w.target)), w.slot, Installed(t, w.slot));
    assert Staged(b, b, w);
    CloseStages(b, b, w, false, env);
  }

  lemma UntouchedFrom(t: State, a: State, r: State, w: Switching)
    requires OnlyStage(t, a, w.actor) && Untouched(a, r, w.actor)
    ensures Untouched(t, r, w.actor)
  {}

  /** What a switch that happened has done. */
  ghost predicate Effect(s: State, r: State, w: Switching, env: Env) {
    && (forall slot :: Lookup(r.active, slot) == if slot == w.slot then w.target else Lookup(s.active, slot))
    && r.threshold == (match PlanThreshold(w, env) case None => s.threshold case Some(x) => x)
    && (w.target != "" ==>
          w.target in r.recs && r.recs[w.target].active
          && r.recs[w.target].prev == (if w.mode == Activate then w.leaving else "")
          && r.recs[w.target].prevThreshold == Replaced(w, env, s.threshold)
          && r.recs[w.target].confirmed == w.conf)
  }

  lemma FinishWorks(t: State, w: Switching, env: Env)
    requires Inv(t) && t.up && Consistent(t, w) && CommitWorks(w, env)
    ensures Finish(t, w, env).1 && Inv(Finish(t, w, env).0) && Finish(t, w, env).0.up
    ensures Effect(t, Finish(t, w, env).0, w, env)
  {
    AnnounceStages(t, t, w, env);
    var a := Announced(t, w, env);
    CommitLookups(a, w, env, t.threshold);
    CommitKeepsInv(a, w, env, t.threshold);
    var u := Committed(a, w, env, t.threshold);
    assert Inv(Finish(t, w, env).0) by {
      if PlanThreshold(w, env).Some? { ThresholdKeepsInv(u, PlanThreshold(w, env).value); }
    }
  }

  lemma ThresholdKeepsInv(u: State, x: real)
    requires Inv(u)
    ensures Inv(u.(threshold := x))
  {}

  lemma SwitchSetsOut(s: State, id: Id, mode: Mode, env: Env)
    requires Inv(s) && s.up && MayBegin(s, id, mode)
    ensures var w := Begin(s, id, mode, env);
            && Consistent(s, w)
            && Staged(s, MigratingStage(s, w, env), w)
            && forall waits :: Staged(s, Close(Preparing(s, w), w, waits, env), w)
                               && Staged(s, Close(MigratingStage(s, w, env), w, waits, env), w)
  {
    var w := Begin(s, id, mode, env);
    BeginIsConsistent(s, id, mode, env);
    PrepareStages(s, w);
    MigrateStages(s, w, env);
    forall waits ensures Staged(s, Close(Preparing(s, w), w, waits, env), w)
                         && Staged(s, Close(MigratingStage(s, w, env), w, waits, env), w)
    {
      CloseStages(s, Preparing(s, w), w, waits, env);
      CloseStages(s, MigratingStage(s, w, env), w, waits, env);
    }
  }

  /** A switch keeps the invariant exactly when no record update fails after the registry's
      selection has been written. */
  lemma SwitchKeepsInvIff(s: State, id: Id, mode: Mode, env: Env)
    requires Inv(s) && s.up
    ensures Inv(Switch(s, id, mode, env).0) <==> !Torn(s, id, mode, env)
  {
    if Starts(s, id, mode, env) {
      var w := Begin(s, id, mode, env);
      SwitchSetsOut(s, id, mode, env);
      var t := MigratingStage(s, w, env);
      if EarlyEnd(w, env).None? && !ExecuteFails(env) {
        if env.selectFails {
          FinishUnselected(t, w, env);
        } else if CommitWorks(w, env) {
          FinishWorks(t, w, env);
        } else {
          FinishTorn(t, w, env);
        }
      }
    }
  }

  /** A switch that did not happen leaves every slot's implementation, both selections, the
      threshold and every record but the stage of its own plugin as they were. */
  lemma FailedSwitchChangesNothing(s: State, id: Id, mode: Mode, env: Env)
    requires Inv(s) && s.up && !Switch(s, id, mode, env).1 && !Torn(s, id, mode, env)
    ensures Untouched(s, Switch(s, id, mode, env).0, id)
  {
    if Starts(s, id, mode, env) {
      var w := Begin(s, id, mode, env);
      SwitchSetsOut(s, id, mode, env);
      var t := MigratingStage(s, w, env);
      if EarlyEnd(w, env).None? && !ExecuteFails(env) {
        if env.selectFails {
          FinishUnselected(t, w, env);
        } else {
          FinishWorks(t, w, env);
        }
      }
    }
  }

  /** A switch that happened made its target the selection, and set the planned threshold. */
  lemma SwitchEffect(s: State, id: Id, mode: Mode, env: Env)
    requires Inv(s) && s.up && Switch(s, id, mode, env).1 && !Torn(s, id, mode, env)
    ensures Starts(s, id, mode, env) && Inv(Switch(s, id, mode, env).0) && Switch(s, id, mode, env).0.up
    ensures Effect(s, Switch(s, id, mode, env).0, Begin(s, id, mode, env), env)
  {
    var w := Begin(s, id, mode, env);
    SuccessFinishes(s, id, mode, env);
    SwitchSetsOut(s, id, mode, env);
    var t := MigratingStage(s, w, env);
    FinishWorks(t, w, env);
    EffectFrom(s, t, Finish(t, w, env).0, w, env);
  }

  /** A switch that happened got as far as the swap, and nothing failed there. */
  lemma SuccessFinishes(s: State, id: Id, mode: Mode, env: Env)
    requires Switch(s, id, mode, env).1 && !Torn(s, id, mode, env)
    ensures Starts(s, id, mode, env) && CommitWorks(Begin(s, id, mode, env), env)
    ensures var w := Begin(s, id, mode, env);
            Switch(s, id, mode, env) == Finish(MigratingStage(s, w, env), w, env)
  {}

  lemma EffectFrom(s: State, t: State, r: State, w: Switching, env: Env)
    requires OnlyStage(s, t, w.actor) && Effect(t, r, w, env)
    ensures Effect(s, r, w, env)
  {}

  /** Rolling back a plugin that has just been activated brings back what served every slot
      before, and the threshold too exactly when the activation had not changed it or the
      metric is seen to change back. */
  lemma RollbackUndoesActivate(s: State, id: Id, env1: Env, s1: State, env2: Env, s2: State)
    requires Inv(s) && s.up && env2.conf.None?
    requires Switch(s, id, Activate, env1) == (s1, true) && !Torn(s, id, Activate, env1)
    requires Switch(s1, id, Rollback, env2) == (s2, true) && !Torn(s1, id, Rollback, env2)
    ensures Inv(s2) && Starts(s, id, Activate, env1)
    ensures forall slot ::
              Lookup(s2.active, slot) == Lookup(s.active, slot) && Installed(s2, slot) == Installed(s, slot)
    ensures var changed := PlanThreshold(Begin(s, id, Activate, env1), env1);
            s2.threshold == s.threshold <==>
              || changed.None? || changed.value == s.threshold
              || MetricChanges(Begin(s1, id, Rollback, env2), env2)
  {
    SwitchEffect(s, id, Activate, env1);
    ActivatedBegins(s, s1, id, env1, env2);
    SwitchEffect(s1, id, Rollback, env2);
    SelectionsUndone(s, s1, s2, Begin(s, id, Activate, env1).slot, id);
  }

  /** What a rollback sets out to do right after an activation. */
  lemma ActivatedBegins(s: State, s1: State, id: Id, env1: Env, env2: Env)
    requires Inv(s1) && s1.up && id in s.recs && Effect(s, s1, Begin(s, id, Activate, env1), env1)
    requires id in s1.recs && env2.conf.None?
    ensures var w1, w2 := Begin(s, id, Activate, env1), Begin(s1, id, Rollback, env2);
            w2.slot == w1.slot && w2.target == w1.leaving && w2.conf == s1.recs[id].prevThreshold
  {
    var slot := Begin(s, id, Activate, env1).slot;
    assert Lookup(s1.active, slot) == id && Lookup(s1.regActive, slot) == id;
  }

  /** Taking a slot to a plugin and back changes no selection. */
  lemma SelectionsUndone(s: State, s1: State, s2: State, slot: Slot, id: Id)
    requires Inv(s) && s.up && Inv(s2) && s2.up
    requires forall x :: Lookup(s1.active, x) == if x == slot then id else Lookup(s.active, x)
    requires forall x :: Lookup(s2.active, x) == if x == slot then Lookup(s.active, slot) else Lookup(s1.active, x)
    ensures forall x :: Lookup(s2.active, x) == Lookup(s.active, x) && Installed(s2, x) == Installed(s, x)
  {
    forall x ensures Lookup(s2.active, x) == Lookup(s.active, x) && Installed(s2, x) == Installed(s, x) {
      assert Lookup(s1.active, x) == if x == slot then id else Lookup(s.active, x);
    }
  }

  /** Exactly when a switch happens. */
  lemma SwitchHappensIff(s: State, id: Id, mode: Mode, env: Env)
    requires Inv(s) && s.up
    ensures Switch(s, id, mode, env).1 <==>
              && ReachesCommit(s, id, mode, env)
              && !(Begin(s, id, mode, env).target != "" && env.updateNewFails)
  {
    if ReachesCommit(s, id, mode, env) {
      var w := Begin(s, id, mode, env);
      SwitchSetsOut(s, id, mode, env);
      var t := MigratingStage(s, w, env);
      AnnounceStages(s, t, w, env);
      if !(w.target != "" && env.updateNewFails) { CommitLookups(Announced(t, w, env), w, env, t.threshold); }
    }
  }

  /** A deactivation that begins, does not happen, and does not wait for the administrator. */
  ghost predicate DeactivationFails(s: State, id: Id, env: Env) {
    && Inv(s) && s.up && MayBegin(s, id, Deactivate)
    && !Switch(s, id, Deactivate, env).1 && !Torn(s, id, Deactivate, env)
    && EarlyEnd(Begin(s, id, Deactivate, env), env) != Some(true) && !ExecuteWaits(env)
  }

  /** A deactivation that fails leaves its plugin serving and available for deactivation. If
      its record gets marked failed, as it should, it can no longer be rolled back. */
  lemma FailedDeactivationBlocksRollback(s: State, id: Id, env: Env)
    requires DeactivationFails(s, id, env)
    ensures var r := Switch(s, id, Deactivate, env).0;
            && Untouched(s, r, id) && r.recs[id].active && MayBegin(r, id, Deactivate)
            && (!env.stages.closing ==> r.recs[id].stage == Failed && !MayBegin(r, id, Rollback))
  {
    FailedSwitchChangesNothing(s, id, Deactivate, env);
    if !env.stages.closing {
      FailedDeactivationMarks(s, id, env);
      FailedCannotRollBack(Switch(s, id, Deactivate, env).0, id);
    }
  }

  lemma FailedCannotRollBack(s: State, id: Id)
    requires id in s.recs && s.recs[id].stage == Failed
    ensures !MayBegin(s, id, Rollback)
  {}

  lemma FailedDeactivationMarks(s: State, id: Id, env: Env)
    requires DeactivationFails(s, id, env)
    requires !env.stages.closing
    ensures id in Switch(s, id, Deactivate, env).0.recs && Switch(s, id, Deactivate, env).0.recs[id].stage == Failed
  {
    var w := Begin(s, id, Deactivate, env);
    SwitchSetsOut(s, id, Deactivate, env);
    var t := MigratingStage(s, w, env);
    if EarlyEnd(w, env).None? && !ExecuteFails(env) {
      if env.selectFails { FinishUnselected(t, w, env); } else { FinishWorks(t, w, env); }
    }
  }

  /** Rollback is available to exactly the active plugins whose record says so. */
  lemma RollbackAvailable(s: State, id: Id)
    requires Inv(s) && id in s.recs && s.recs[id].active
    ensures MayBegin(s, id, Rollback) <==> s.recs[id].stage.Active? || s.recs[id].stage.RollingBack?
  {}

  // ---- deletion and restart ---------------------------------------------------------------------------------

  lemma PipelineKeepsInv(s: State, id: Id, mode: InstallMode, faults: Faults)
    requires Inv(s) && id in s.recs && s.recs[id].stage == Draft && !faults.verdictLost
    ensures Inv(s.(recs := s.recs[id := Pipeline(s.recs[id], mode, faults)]))
  {
    PipelineOutcome(s.recs[id], mode, faults);
  }

  lemma DeleteKeepsInv(s: State, id: Id)
    requires Inv(s)
    ensures Inv(Delete(s, id))
  {}

  ghost predicate MirroredAt(s: State, slot: Slot) {
    Lookup(s.active, slot) == Lookup(s.regActive, slot) && Installed(s, slot) == ImplOf(Lookup(s.regActive, slot))
  }

  /** Marking a plugin failed and clearing its selection. */
  lemma GiveUpKeeps(s: State, slot: Slot)
    requires RegistrySound(s) && Lookup(s.regActive, slot) != ""
    ensures RegistrySound(RestoreSlot(s, slot, false).0)
  {
    if !StateBearing(slot) {
      var id, t := Lookup(s.regActive, slot), RestoreSlot(s, slot, false).0;
      assert id in s.recs && SlotOf(s.recs[id].typ) == slot;
      forall x ensures Lookup(t.regActive, x) == if x == slot then "" else Lookup(s.regActive, x) {}
      assert SelectionSound(t);
      assert ActiveSound(t);
    }
  }

  lemma RestoreSlotKeeps(s: State, slot: Slot, works: bool)
    requires RegistrySound(s) && Lookup(s.active, slot) == "" && Installed(s, slot) == Builtin
    ensures var (t, ok) := RestoreSlot(s, slot, works);
            && RegistrySound(t) && (ok ==> MirroredAt(t, slot))
            && forall x :: x != slot ==>
                 && Lookup(t.active, x) == Lookup(s.active, x) && Installed(t, x) == Installed(s, x)
                 && Lookup(t.regActive, x) == Lookup(s.regActive, x)
  {
    RestoreSlotSound(s, slot, works);
    var t := RestoreSlot(s, slot, works).0;
    forall x | x != slot
      ensures Lookup(t.active, x) == Lookup(s.active, x) && Installed(t, x) == Installed(s, x)
      ensures Lookup(t.regActive, x) == Lookup(s.regActive, x)
    {
      RestoreSlotFrame(s, slot, works, x);
    }
  }

  lemma RestoreSlotSound(s: State, slot: Slot, works: bool)
    requires RegistrySound(s) && Lookup(s.active, slot) == "" && Installed(s, slot) == Builtin
    ensures var (t, ok) := RestoreSlot(s, slot, works); RegistrySound(t) && (ok ==> MirroredAt(t, slot))
  {
    if Lookup(s.regActive, slot) != "" {
      assert Lookup(s.regActive, slot) in s.recs;
      if !works { GiveUpKeeps(s, slot); }
    }
  }

  /** Another slot is left alone. */
  lemma RestoreSlotFrame(s: State, slot: Slot, works: bool, x: Slot)
    requires x != slot
    ensures var t := RestoreSlot(s, slot, works).0;
            && Lookup(t.active, x) == Lookup(s.active, x) && Installed(t, x) == Installed(s, x)
            && Lookup(t.regActive, x) == Lookup(s.regActive, x)
  {
    RestoreSlotWrites(s, slot, works);
    WritesFrame(s, RestoreSlot(s, slot, works).0, slot, x);
  }

  /** What restoring a slot may write besides records. */
  predicate Writes(s: State, t: State, slot: Slot) {
    var id := Lookup(s.regActive, slot);
    && (t.regActive == s.regActive || t.regActive == s.regActive - {slot})
    && (t.active == s.active || t.active == s.active[slot := id])
    && (t.impl == s.impl || t.impl == s.impl[slot := Adapter(id)])
  }

  lemma RestoreSlotWrites(s: State, slot: Slot, works: bool)
    ensures Writes(s, RestoreSlot(s, slot, works).0, slot)
  {}

  lemma WritesFrame(s: State, t: State, slot: Slot, x: Slot)
    requires Writes(s, t, slot) && x != slot
    ensures Lookup(t.active, x) == Lookup(s.active, x) && Installed(t, x) == Installed(s, x)
    ensures Lookup(t.regActive, x) == Lookup(s.regActive, x)
  {
    var id := Lookup(s.regActive, slot);
    DropElsewhere(s.regActive, slot, x);
    PutElsewhere(s.active, slot, id, x);
    PutElsewhere(s.impl, slot, Adapter(id), x);
  }

  lemma DropElsewhere<K, T>(m: map<K, T>, k: K, x: K)
    requires x != k
    ensures (x in m - {k} <==> x in m) && (x in m ==> (m - {k})[x] == m[x])
  {}

  lemma PutElsewhere<K, T>(m: map<K, T>, k: K, v: T, x: K)
    requires x != k
    ensures (x in m[k := v] <==> x in m) && (x in m ==> m[k := v][x] == m[x])
  {}

  lemma {:induction false} RestoreKeeps(s: State, slots: seq<Slot>, works: map<Slot, bool>)
    requires RegistrySound(s)
    requires forall i, j :: 0 <= i < j < |slots| ==> slots[i] != slots[j]
    requires forall slot :: slot in slots ==> Lookup(s.active, slot) == "" && Installed(s, slot) == Builtin
    requires forall slot :: slot !in slots ==> MirroredAt(s, slot)
    ensures var (t, ok) := RestoreFrom(s, slots, works);
            RegistrySound(t) && (ok ==> forall slot :: MirroredAt(t, slot))
    decreases |slots|
  {
    if slots != [] {
      var works0 := slots[0] in works && works[slots[0]];
      RestoreSlotKeeps(s, slots[0], works0);
      var (t, ok) := RestoreSlot(s, slots[0], works0);
      if ok {
        forall slot ensures slot in slots[1..] <==> slot in slots && slot != slots[0] {
          assert slots == [slots[0]] + slots[1..];
        }
        RestoreKeeps(t, slots[1..], works);
      }
    }
  }

  lemma SlotsComplete()
    ensures forall slot :: slot in SLOTS
    ensures forall i, j :: 0 <= i < j < |SLOTS| ==> SLOTS[i] != SLOTS[j]
  {
    forall slot: Slot ensures slot in SLOTS {
      match slot {
        case LLMSlot => assert SLOTS[0] == slot;
        case EmbedderSlot => assert SLOTS[1] == slot;
        case VectorStoreSlot => assert SLOTS[2] == slot;
        case PersistenceSlot => assert SLOTS[3] == slot;
        case QueueSlot => assert SLOTS[4] == slot;
        case PolicySlot => assert SLOTS[5] == slot;
      }
    }
  }

  lemma RestoreAll(z: State, slots: seq<Slot>, works: map<Slot, bool>)
    requires RegistrySound(z) && z.active == map[] && z.impl == map[]
    requires forall slot :: slot in slots
    requires forall i, j :: 0 <= i < j < |slots| ==> slots[i] != slots[j]
    ensures var (t, ok) := RestoreFrom(z, slots, works); Inv(t.(up := ok))
  {
    RestoreKeeps(z, slots, works);
    var (t, ok) := RestoreFrom(z, slots, works);
    var u := t.(up := ok);
    if ok {
      forall slot
        ensures Lookup(u.active, slot) == Lookup(u.regActive, slot)
        ensures Installed(u, slot) == ImplOf(Lookup(u.regActive, slot))
      {
        assert MirroredAt(t, slot);
      }
    }
  }

  lemma RestartKeepsInv(s: State, works: map<Slot, bool>, configured: real)
    requires Inv(s)
    ensures Inv(Restart(s, works, configured))
  {
    SlotsComplete();
    RestoreAll(Forgotten(s, configured), SLOTS, works);
  }

  predicate Works(works: map<Slot, bool>, slot: Slot) {
    slot in works && works[slot]
  }

  /** The plugin selected for the slot can be restored, or there is none. */
  predicate Restorable(selected: map<Slot, Id>, works: map<Slot, bool>, slot: Slot) {
    Lookup(selected, slot) == "" || Works(works, slot)
  }

  /** What has become of a slot and of its selected plugin: the plugin serves, its record
      unchanged, or the slot has fallen back to the built-in and the plugin is marked failed. */
  ghost predicate Served(selected: map<Slot, Id>, before: map<Id, Record>, active: map<Slot, Id>,
                         after: map<Id, Record>,
                         works: map<Slot, bool>, slot: Slot) {
    var a := Lookup(selected, slot);
    if Restorable(selected, works, slot) then
      Lookup(active, slot) == a && (a != "" ==> a in before && a in after && after[a] == before[a])
    else
      Lookup(active, slot) == "" && a in before && a in after
          && after[a] == before[a].(active := false, stage := Failed)
  }

  /** Records of plugins that none of `slots` selects are untouched. */
  ghost predicate OthersKept(selected: map<Slot, Id>, before: map<Id, Record>, after: map<Id, Record>,
      slots: seq<Slot>) {
    && after.Keys == before.Keys
    && forall id :: id in before && (forall slot :: slot in slots ==> Lookup(selected, slot) != id) ==>
        after[id] == before[id]
  }

  lemma RestoreSlotServes(s: State, slot: Slot, works: map<Slot, bool>)
    requires RegistrySound(s) && Lookup(s.active, slot) == ""
    ensures var (t, ok) := RestoreSlot(s, slot, Works(works, slot));
            && (ok <==> Restorable(s.regActive, works, slot) || !StateBearing(slot))
            && (ok ==> Served(s.regActive, s.recs, t.active, t.recs, works, slot))
            && OthersKept(s.regActive, s.recs, t.recs, [slot])
  {
    if Lookup(s.regActive, slot) != "" { assert Lookup(s.regActive, slot) in s.recs; }
  }

  /** Different slots select different plugins. */
  lemma SelectedOnce(s: State, a: Slot, b: Slot)
    requires SelectionSound(s) && a != b && Lookup(s.regActive, a) != ""
    ensures Lookup(s.regActive, a) != Lookup(s.regActive, b)
  {
    assert SlotOf(s.recs[Lookup(s.regActive, a)].typ) == a;
    if Lookup(s.regActive, b) != "" { assert SlotOf(s.recs[Lookup(s.regActive, b)].typ) == b; }
  }

  /** How the slots `slots` end up. */
  ghost predicate AllServed(s: State, t: State, slots: seq<Slot>, works: map<Slot, bool>) {
    forall slot :: slot in slots ==> Served(s.regActive, s.recs, t.active, t.recs, works, slot)
  }

  ghost predicate StateRestorable(selected: map<Slot, Id>, slots: seq<Slot>, works: map<Slot, bool>) {
    forall slot :: slot in slots && StateBearing(slot) ==> Restorable(selected, works, slot)
  }

  /** Different slots that nothing has been restored into yet. */
  ghost predicate Unrestored(s: State, slots: seq<Slot>) {
    && (forall i, j :: 0 <= i < j < |slots| ==> slots[i] != slots[j])
    && forall slot :: slot in slots ==> Lookup(s.active, slot) == "" && Installed(s, slot) == Builtin
  }

  lemma RestUnrestored(s: State, slots: seq<Slot>, works: map<Slot, bool>)
    requires RegistrySound(s) && slots != [] && Unrestored(s, slots)
    ensures slots == [slots[0]] + slots[1..] && slots[0] !in slots[1..]
    ensures var u := RestoreSlot(s, slots[0], Works(works, slots[0])).0;
            && RegistrySound(u) && Unrestored(u, slots[1..])
            && forall slot :: slot != slots[0] ==>
                 Lookup(u.regActive, slot) == Lookup(s.regActive, slot)
                     && Lookup(u.active, slot) == Lookup(s.active, slot)
  {
    RestoreSlotKeeps(s, slots[0], Works(works, slots[0]));
  }

  ghost predicate RestoredAs(s: State, t: State, ok: bool, slots: seq<Slot>, works: map<Slot, bool>) {
    && (ok <==> StateRestorable(s.regActive, slots, works))
    && (ok ==> AllServed(s, t, slots, works))
    && (forall slot :: slot !in slots ==> Lookup(t.active, slot) == Lookup(s.active, slot))
    && OthersKept(s.regActive, s.recs, t.recs, slots)
  }

  lemma {:induction false} RestoreServes(s: State, slots: seq<Slot>, works: map<Slot, bool>)
    requires RegistrySound(s) && Unrestored(s, slots)
    ensures RestoredAs(s, RestoreFrom(s, slots, works).0, RestoreFrom(s, slots, works).1, slots, works)
    decreases |slots|
  {
    if slots != [] {
      RestUnrestored(s, slots, works);
      var (u, ok) := RestoreSlot(s, slots[0], Works(works, slots[0]));
      if ok { RestoreServes(u, slots[1..], works); }
      var (t, done) := RestoreFrom(u, slots[1..], works);
      RestoredOneMore(s, u, ok, t, done, slots[0], slots[1..], works);
    }
  }

  lemma RestoredOneMore(s: State, u: State, ok: bool, t: State, done: bool, first: Slot, rest: seq<Slot>,
      works: map<Slot, bool>)
    requires RegistrySound(s) && first !in rest && Lookup(s.active, first) == ""
    requires (u, ok) == RestoreSlot(s, first, Works(works, first))
    requires forall slot :: slot != first ==>
               Lookup(u.regActive, slot) == Lookup(s.regActive, slot)
                   && Lookup(u.active, slot) == Lookup(s.active, slot)
    requires ok ==> RestoredAs(u, t, done, rest, works)
    ensures RestoredAs(s, if ok then t else u, ok && done, [first] + rest, works)
  {
    RestoreSlotServes(s, first, works);
    FirstAndRest(s, u, first, rest, works);
    if ok { ServesOneMore(s, u, t, first, rest, works, done); }
  }

  lemma FirstAndRest(s: State, u: State, first: Slot, rest: seq<Slot>, works: map<Slot, bool>)
    requires OthersKept(s.regActive, s.recs, u.recs, [first])
    ensures OthersKept(s.regActive, s.recs, u.recs, [first] + rest)
    ensures StateRestorable(s.regActive, [first] + rest, works) <==>
              (StateBearing(first) ==> Restorable(s.regActive, works, first))
                  && StateRestorable(s.regActive, rest, works)
  {
    assert first in [first] + rest && first in [first];
    assert forall slot :: slot in rest ==> slot in [first] + rest;
  }

  /** Restoring the other slots does not disturb the first one, nor the other way round. */
  lemma ServesOneMore(s: State, u: State, t: State, first: Slot, rest: seq<Slot>, works: map<Slot, bool>, done: bool)
    requires RegistrySound(s) && first !in rest
    requires Served(s.regActive, s.recs, u.active, u.recs, works, first)
        && OthersKept(s.regActive, s.recs, u.recs, [first])
    requires forall slot :: slot != first ==> Lookup(u.regActive, slot) == Lookup(s.regActive, slot)
    requires Lookup(t.active, first) == Lookup(u.active, first) && OthersKept(u.regActive, u.recs, t.recs, rest)
    requires done ==> AllServed(u, t, rest, works)
    ensures StateRestorable(u.regActive, rest, works) <==> StateRestorable(s.regActive, rest, works)
    ensures done ==> AllServed(s, t, [first] + rest, works)
    ensures OthersKept(s.regActive, s.recs, t.recs, [first] + rest)
  {
    SameRestorable(s, u, rest, works);
    KeptInTurn(s, u, t, first, rest);
    if done {
      FirstServed(s, u, t, first, rest, works);
      forall slot | slot in rest ensures Served(s.regActive, s.recs, t.active, t.recs, works, slot) {
        assert Served(u.regActive, u.recs, t.active, t.recs, works, slot);
        RestServed(s, u, t, first, slot, works);
      }
      AllOrFirst(s, t, first, rest, works);
    }
  }

  lemma AllOrFirst(s: State, t: State, first: Slot, rest: seq<Slot>, works: map<Slot, bool>)
    requires Served(s.regActive, s.recs, t.active, t.recs, works, first) && AllServed(s, t, rest, works)
    ensures AllServed(s, t, [first] + rest, works)
  {
    forall slot | slot in [first] + rest ensures slot == first || slot in rest {}
  }

  lemma SameRestorable(s: State, u: State, rest: seq<Slot>, works: map<Slot, bool>)
    requires forall slot :: slot in rest ==> Lookup(u.regActive, slot) == Lookup(s.regActive, slot)
    ensures StateRestorable(u.regActive, rest, works) <==> StateRestorable(s.regActive, rest, works)
  {
    assert forall slot :: slot in rest ==>
        (Restorable(u.regActive, works, slot) <==> Restorable(s.regActive, works, slot));
  }

  lemma KeptInTurn(s: State, u: State, t: State, first: Slot, rest: seq<Slot>)
    requires OthersKept(s.regActive, s.recs, u.recs, [first]) && OthersKept(u.regActive, u.recs, t.recs, rest)
    requires forall slot :: slot in rest ==> Lookup(u.regActive, slot) == Lookup(s.regActive, slot)
    ensures OthersKept(s.regActive, s.recs, t.recs, [first] + rest)
  {
    forall id | id in s.recs && forall slot :: slot in [first] + rest ==> Lookup(s.regActive, slot) != id
      ensures t.recs[id] == s.recs[id]
    {
      assert first in [first] + rest;
      assert forall slot :: slot in rest ==> slot in [first] + rest;
    }
  }

  lemma FirstServed(s: State, u: State, t: State, first: Slot, rest: seq<Slot>, works: map<Slot, bool>)
    requires SelectionSound(s) && first !in rest
    requires Served(s.regActive, s.recs, u.active, u.recs, works, first)
    requires forall slot :: slot != first ==> Lookup(u.regActive, slot) == Lookup(s.regActive, slot)
    requires Lookup(t.active, first) == Lookup(u.active, first) && OthersKept(u.regActive, u.recs, t.recs, rest)
    ensures Served(s.regActive, s.recs, t.active, t.recs, works, first)
  {
    if Lookup(s.regActive, first) != "" { FirstKept(s, u, t, first, rest); }
  }

  lemma RestServed(s: State, u: State, t: State, first: Slot, slot: Slot, works: map<Slot, bool>)
    requires RegistrySound(s) && slot != first && Lookup(u.regActive, slot) == Lookup(s.regActive, slot)
    requires OthersKept(s.regActive, s.recs, u.recs, [first])
    requires Served(u.regActive, u.recs, t.active, t.recs, works, slot)
    ensures Served(s.regActive, s.recs, t.active, t.recs, works, slot)
  {
    if Lookup(s.regActive, slot) != "" {
      SelectedOnce(s, slot, first);
      assert Lookup(s.regActive, slot) in s.recs;
    }
  }

  lemma FirstKept(s: State, u: State, t: State, first: Slot, rest: seq<Slot>)
    requires SelectionSound(s) && first !in rest && Lookup(s.regActive, first) != ""
    requires Lookup(s.regActive, first) in u.recs
    requires forall slot :: slot != first ==> Lookup(u.regActive, slot) == Lookup(s.regActive, slot)
    requires OthersKept(u.regActive, u.recs, t.recs, rest)
    ensures var a := Lookup(s.regActive, first); a in t.recs && t.recs[a] == u.recs[a]
  {
    forall slot | slot in rest ensures Lookup(u.regActive, slot) != Lookup(s.regActive, first) {
      SelectedOnce(s, first, slot);
    }
  }

  /** A restart comes up exactly when every selected plugin that bears state can be restored,
      and then those all serve: none is silently replaced by the built-in. A selected plugin
      without state that cannot be restored is marked failed and its slot falls back; every
      other record is as it was. */
  lemma RestartServes(s: State, works: map<Slot, bool>, configured: real)
    requires Inv(s)
    ensures var r := Restart(s, works, configured);
            && (r.up <==> forall slot :: StateBearing(slot) ==> Restorable(s.regActive, works, slot))
            && (r.up ==> forall slot :: StateBearing(slot) ==> Lookup(r.active, slot) == Lookup(s.regActive, slot))
            && (r.up ==> forall slot :: Served(s.regActive, s.recs, r.active, r.recs, works, slot))
            && OthersKept(s.regActive, s.recs, r.recs, SLOTS)
  {
    SlotsComplete();
    RestoreServesAll(Forgotten(s, configured), SLOTS, works);
  }

  lemma RestoreServesAll(z: State, slots: seq<Slot>, works: map<Slot, bool>)
    requires RegistrySound(z) && z.active == map[] && z.impl == map[]
    requires forall slot :: slot in slots
    requires forall i, j :: 0 <= i < j < |slots| ==> slots[i] != slots[j]
    ensures var (t, ok) := RestoreFrom(z, slots, works);
            && (ok <==> forall slot :: StateBearing(slot) ==> Restorable(z.regActive, works, slot))
            && (ok ==> forall slot :: StateBearing(slot) ==> Lookup(t.active, slot) == Lookup(z.regActive, slot))
            && (ok ==> forall slot :: Served(z.regActive, z.recs, t.active, t.recs, works, slot))
            && OthersKept(z.regActive, z.recs, t.recs, slots)
  {
    RestoreServes(z, slots, works);
    var (t, ok) := RestoreFrom(z, slots, works);
    if ok {
      forall slot ensures Served(z.regActive, z.recs, t.active, t.recs, works, slot) { assert slot in slots; }
    }
  }

  /** The threshold that a restart brings back: what was confirmed when the selected vector
      store was activated, or else the configured one. */
  function Kept(s: State, configured: real): real {
    var id := Lookup(s.regActive, VectorStoreSlot);
    if id != "" && id in s.recs then RestoredThreshold(VectorStoreSlot, s.recs[id], configured) else configured
  }

  lemma RestoreSlotThreshold(s: State, slot: Slot, works: bool)
    requires SelectionSound(s)
    ensures var (t, ok) := RestoreSlot(s, slot, works);
            ok ==> if slot == VectorStoreSlot then t.threshold == Kept(s, s.threshold)
                   else t.threshold == s.threshold && Kept(t, t.threshold) == Kept(s, s.threshold)
  {
    if slot != VectorStoreSlot && Lookup(s.regActive, slot) != "" && Lookup(s.regActive, VectorStoreSlot) != "" {
      SelectedOnce(s, slot, VectorStoreSlot);
    }
  }

  lemma {:induction false} RestoreThreshold(s: State, slots: seq<Slot>, works: map<Slot, bool>)
    requires RegistrySound(s) && Unrestored(s, slots)
    ensures var (t, ok) := RestoreFrom(s, slots, works);
            ok ==> t.threshold == if VectorStoreSlot in slots then Kept(s, s.threshold) else s.threshold
    decreases |slots|
  {
    if slots != [] {
      RestUnrestored(s, slots, works);
      RestoreSlotThreshold(s, slots[0], Works(works, slots[0]));
      var (u, ok) := RestoreSlot(s, slots[0], Works(works, slots[0]));
      if ok { RestoreThreshold(u, slots[1..], works); }
    }
  }

  lemma RestartThreshold(s: State, works: map<Slot, bool>, configured: real)
    requires Inv(s) && Restart(s, works, configured).up
    ensures Restart(s, works, configured).threshold == Kept(s, configured)
  {
    SlotsComplete();
    RestoreThreshold(Forgotten(s, configured), SLOTS, works);
    assert Kept(Forgotten(s, configured), configured) == Kept(s, configured);
  }

  /** After a switch of the vector store, a restart brings back the threshold in force exactly
      in these cases: a threshold was confirmed for the new plugin, and the switch has set it or
      it was in force already; or none was confirmed, or the built-in was put back, and the
      threshold in force is the configured one. */
  lemma RestartKeepsThresholdIff(s: State, id: Id, mode: Mode, env: Env, works: map<Slot, bool>, configured: real)
    requires Inv(s) && s.up && Switch(s, id, mode, env).1 && !Torn(s, id, mode, env)
    requires SlotOf(s.recs[id].typ) == VectorStoreSlot
    requires Restart(Switch(s, id, mode, env).0, works, configured).up
    ensures var w, t := Begin(s, id, mode, env), Switch(s, id, mode, env).0;
            Restart(t, works, configured).threshold == t.threshold <==>
              if w.target != "" && w.conf.Some? then MetricChanges(w, env) || w.conf.value == s.threshold
              else (if MetricChanges(w, env) && w.conf.Some? then w.conf.value else s.threshold) == configured
  {
    var w, t := Begin(s, id, mode, env), Switch(s, id, mode, env).0;
    SwitchEffect(s, id, mode, env);
    RestartThreshold(t, works, configured);
    assert Lookup(t.active, VectorStoreSlot) == w.target;
    assert Lookup(t.regActive, VectorStoreSlot) == w.target;
  }

  // ---- runs ------------------------------------------------------------------------------------------------------

  /** The registry updates that nothing checks, or whose failure cannot be undone, work. */
  predicate Recorded(s: State, op: Op) {
    match op
    case SwitchOp(id, mode, env) => !Torn(s, id, mode, env)
    case PipelineOp(_, _, faults) => !faults.verdictLost
    case _ => true
  }

  ghost predicate IsRun(ss: seq<State>, ops: seq<Op>) {
    && |ss| == |ops| + 1
    && ss[0] == State(map[], map[], map[], map[], ss[0].threshold, true)
    && forall i :: 0 <= i < |ops| ==>
         Allowed(ss[i], ops[i]) && ss[i + 1] == Step(ss[i], ops[i])
         && Recorded(ss[i], ops[i])
  }

  lemma StepKeepsInv(s: State, op: Op)
    requires Inv(s) && Allowed(s, op)
    requires Recorded(s, op)
    ensures Inv(Step(s, op))
  {
    match op {
      case InstallOp(id, _, _) =>
      case PipelineOp(id, mode, faults) => PipelineKeepsInv(s, id, mode, faults);
      case SwitchOp(id, mode, env) => SwitchKeepsInvIff(s, id, mode, env);
      case DeleteOp(id) => DeleteKeepsInv(s, id);
      case RestartOp(works, configured) => RestartKeepsInv(s, works, configured);
    }
  }

  lemma {:induction false} RunKeepsInv(ss: seq<State>, ops: seq<Op>, n: nat)
    requires IsRun(ss, ops) && n < |ss|
    ensures Inv(ss[n])
  {
    if n > 0 {
      RunKeepsInv(ss, ops, n - 1);
      StepKeepsInv(ss[n - 1], ops[n - 1]);
    }
  }

  /** In every run with the process up: one record at most is active in a slot, and it is
      the manager's selection, the registry's, and what is installed; it passed its
      verification, and its rollback target is the built-in or still exists. */
  lemma OneActivePerSlot(ss: seq<State>, ops: seq<Op>, n: nat, a: Id)
    requires IsRun(ss, ops) && n < |ss| && ss[n].up && a in ss[n].recs && ss[n].recs[a].active
    ensures var (s, r) := (ss[n], ss[n].recs[a]);
            var slot := SlotOf(r.typ);
            && Lookup(s.active, slot) == a && Lookup(s.regActive, slot) == a && Installed(s, slot) == Adapter(a)
            && r.passed && (r.prev == "" || r.prev in s.recs)
            && forall b :: b in s.recs && s.recs[b].active && SlotOf(s.recs[b].typ) == slot ==> b == a
  {
    RunKeepsInv(ss, ops, n);
    assert a != "";
    assert Installed(ss[n], SlotOf(ss[n].recs[a].typ)) == ImplOf(Lookup(ss[n].regActive, SlotOf(ss[n].recs[a].typ)));
  }

  /** And what is installed is never anything but the built-in or an active plugin. */
  lemma InstalledIsActive(ss: seq<State>, ops: seq<Op>, n: nat, slot: Slot)
    requires IsRun(ss, ops) && n < |ss| && ss[n].up
    ensures match Installed(ss[n], slot)
            case Builtin => Lookup(ss[n].active, slot) == ""
            case Adapter(a) => a in ss[n].recs && ss[n].recs[a].active && ss[n].recs[a].passed
                               && SlotOf(ss[n].recs[a].typ) == slot
  {
    RunKeepsInv(ss, ops, n);
    assert Installed(ss[n], slot) == ImplOf(Lookup(ss[n].regActive, slot));
  }
}
