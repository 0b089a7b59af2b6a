/** The life of an installed plugin: its stages, the edges between them, and the verification
    pipeline that takes a draft to verified or failed. */
module Lifecycle {
  import opened Entries

  datatype PluginType =
    | LLM | Embedder | VectorStore | Persistence | Queue | Policy
    | EmbeddingModel | VectorIndex | SimilarityMetric

  datatype Slot = LLMSlot | EmbedderSlot | VectorStoreSlot | PersistenceSlot | QueueSlot | PolicySlot

  /** The Python types are activated into the embedder and vector-store slots. */
  function SlotOf(t: PluginType): Slot {
    match t
    case LLM => LLMSlot
    case Embedder | EmbeddingModel => EmbedderSlot
    case VectorStore | VectorIndex | SimilarityMetric => VectorStoreSlot
    case Persistence => PersistenceSlot
    case Queue => QueueSlot
    case Policy => PolicySlot
  }

  datatype Stage =
    | Draft | Validating | Testing | Building | Scanning | Starting | Migrating | Checking | Activating
    | Verified | Active | Inactive | Failed | RollingBack | RolledBack

  predicate InProgress(s: Stage) {
    || s.Validating? || s.Testing? || s.Building? || s.Scanning? || s.Starting?
    || s.Migrating? || s.Checking? || s.Activating? || s.RollingBack?
  }

  /** Stages only a plugin that has passed its verification gets to. */
  predicate Proven(s: Stage) {
    s.Verified? || s.Active? || s.Inactive? || s.RolledBack?
  }

  /** The table of lifecycle edges. */
  predicate Edge(from: Stage, to: Stage) {
    match from
    case Draft => to.Validating? || to.Failed?
    case Validating => to.Building? || to.Scanning? || to.Starting? || to.Testing? || to.Failed?
    case Building => to.Scanning? || to.Failed?
    case Scanning => to.Starting? || to.Failed?
    case Starting => to.Testing? || to.Failed?
    case Testing => to.Checking? || to.Failed?
    case Checking => to.Verified? || to.Activating? || to.Migrating? || to.Failed?
    case Verified => to.Migrating? || to.Checking? || to.Activating? || to.Validating? || to.Inactive? || to.Failed?
    case Migrating => to.Checking? || to.Activating? || to.Verified? || to.Failed?
    case Activating => to.Active? || to.Verified? || to.Failed?
    case Active => to.Inactive? || to.RollingBack? || to.Active?
    case Inactive => to.Validating? || to.Checking? || to.Migrating? || to.Activating? || to.Failed? || to.Verified?
    case Failed =>
      to.Validating? || to.Checking? || to.Migrating? || to.Activating? || to.Inactive? || to.Verified? || to.Failed?
    case RollingBack => to.RolledBack? || to.Active? || to.Failed?
    case RolledBack => to.Validating? || to.Checking? || to.Migrating? || to.Activating? || to.Inactive? || to.Verified?
  }

  predicate ValidTransition(from: Stage, to: Stage) {
    (from == to && InProgress(from)) || Edge(from, to)
  }

  /** The table read the other way: how a plugin gets to each stage. Nothing leads back to a draft; only a
      plugin being activated, or one whose rollback is called off, becomes active; only one being rolled
      back gets rolled back. */
  lemma EdgesInto(from: Stage, to: Stage)
    ensures Edge(from, to) <==>
              match to
              case Draft => false
              case Validating => from in {Draft, Verified, Inactive, Failed, RolledBack}
              case Testing => from in {Validating, Starting}
              case Building => from == Validating
              case Scanning => from in {Validating, Building}
              case Starting => from in {Validating, Scanning}
              case Migrating => from in {Checking, Verified, Inactive, Failed, RolledBack}
              case Checking => from in {Testing, Verified, Migrating, Inactive, Failed, RolledBack}
              case Activating => from in {Checking, Verified, Migrating, Inactive, Failed, RolledBack}
              case Verified => from in {Checking, Migrating, Activating, Inactive, Failed, RolledBack}
              case Active => from in {Activating, Active, RollingBack}
              case Inactive => from in {Verified, Active, Failed, RolledBack}
              case Failed => from !in {Active, RolledBack}
              case RollingBack => from == Active
              case RolledBack => from == RollingBack
  {}

  /** A stage may be written again only while the plugin is being worked on, is active or has failed. */
  lemma StaysInStage(s: Stage)
    ensures ValidTransition(s, s) <==>
              s in {Validating, Testing, Building, Scanning, Starting, Migrating, Checking, Activating, RollingBack,
                    Active, Failed}
  {}

  /** An installed plugin. `prev` is what a rollback goes back to ("" for the built-in);
      `passed` says that its contract tests ran and passed; `confirmed` is the threshold of
      the administrator's last confirmations. */
  datatype Record = Record(typ: PluginType, stage: Stage, active: bool, prev: Id, prevThreshold: Option<real>,
      passed: bool, confirmed: Option<real>)

  // ---- the verification pipeline ------------------------------------------------------------

  /** How a plugin is supplied: a running endpoint, an image, or a repository to build. */
  datatype InstallMode = Endpoint | Image | Repository

  /** The contract tests: they could not run, or gave a verdict. */
  datatype Contract = CouldNotRun | Verdict(passed: bool)

  /** What goes wrong while one plugin is verified. */
  datatype Faults = Faults(
    secrets: bool,              // its secrets cannot be opened
    prepare: bool,              // build, manifest, configuration or image scan
    start: bool,
    contract: Contract,
    verdictLost: bool,          // the update that records the verdict fails, unnoticed
    health: bool,
    lastUpdate: bool,           // the update that records the healthy instance
    blocked: set<Stage>)        // stage updates that fail

  /** A pipeline under way, or one that has returned. */
  datatype Progress = Going(rec: Record) | Ended(rec: Record)

  /** `setState`; if it fails the pipeline returns and leaves the record where it is. */
  function Move(p: Progress, to: Stage, f: Faults): Progress {
    if p.Ended? then p
    else if to in f.blocked || !ValidTransition(p.rec.stage, to) then Ended(p.rec)
    else Going(p.rec.(stage := to))
  }

  /** `fail`, if `fails`. */
  function Check(p: Progress, fails: bool): Progress {
    if p.Going? && fails then Ended(p.rec.(stage := Failed)) else p
  }

  /** Record the verdict of the contract tests. */
  function Judge(p: Progress, f: Faults): Progress {
    if p.Ended? || f.verdictLost then p else Going(p.rec.(passed := f.contract == Verdict(true)))
  }

  function Halt(p: Progress, fails: bool): Progress {
    if p.Going? && fails then Ended(p.rec) else p
  }

  /** Up to the running candidate: an endpoint already runs, anything else is built or pulled
      and started. */
  function Launched(r: Record, mode: InstallMode, f: Faults): Progress {
    var validating := Move(Check(Going(r), f.secrets), Validating, f);
    if mode == Endpoint then validating
    else
      var built := Check(Move(validating, if mode == Repository then Building else Scanning, f), f.prepare);
      var scanned := if mode == Repository then Move(built, Scanning, f) else built;
      Check(Move(scanned, Starting, f), f.start)
  }

  function Tested(p: Progress, f: Faults): Progress {
    Check(Judge(Check(Move(p, Testing, f), f.contract.CouldNotRun?), f), f.contract == Verdict(false))
  }

  function Concluded(p: Progress, f: Faults): Progress {
    Move(Halt(Check(Move(p, Checking, f), f.health), f.lastUpdate), Verified, f)
  }

  /** `pipeline`: the record it leaves. */
  function Pipeline(r: Record, mode: InstallMode, f: Faults): Record {
    Concluded(Tested(Launched(r, mode, f), f), f).rec
  }

  /** The registry record of a plugin being verified. */
  class Candidate {
    var rec: Record

    constructor (rec: Record)
      ensures this.rec == rec
    {
      this.rec := rec;
    }

    method SetState(to: Stage, f: Faults) returns (ok: bool)
      modifies this
      ensures Move(Going(old(rec)), to, f) == if ok then Going(rec) else Ended(rec)
      ensures ok <==> to !in f.blocked && ValidTransition(old(rec).stage, to)
      ensures rec == if ok then old(rec).(stage := to) else old(rec)
    {
      if to in f.blocked || !ValidTransition(rec.stage, to) {
        return false;
      }
      rec := rec.(stage := to);
      return true;
    }

    method Fail()
      modifies this
      ensures rec == old(rec).(stage := Failed)
    {
      rec := rec.(stage := Failed);
    }

    method Launch(mode: InstallMode, f: Faults) returns (ok: bool)
      modifies this
      ensures Launched(old(rec), mode, f) == if ok then Going(rec) else Ended(rec)
    {
      if f.secrets {
        Fail();
        return false;
      }
      ok := SetState(Validating, f);
      if !ok || mode == Endpoint {
        return;
      }
      ok := SetState(if mode == Repository then Building else Scanning, f);
      if !ok {
        return;
      }
      if f.prepare {
        Fail();
        return false;
      }
      if mode == Repository {
        ok := SetState(Scanning, f);
        if !ok {
          return;
        }
      }
      ok := SetState(Starting, f);
      if !ok {
        return;
      }
      if f.start {
        Fail();
        return false;
      }
    }

    method Test(f: Faults) returns (ok: bool)
      modifies this
      ensures Tested(Going(old(rec)), f) == if ok then Going(rec) else Ended(rec)
    {
      ok := SetState(Testing, f);
      if !ok {
        return;
      }
      if f.contract.CouldNotRun? {
        Fail();
        return false;
      }
      if !f.verdictLost {
        rec := rec.(passed := f.contract.passed);
      }
      if !f.contract.passed {
        Fail();
        return false;
      }
    }

    method Run(mode: InstallMode, f: Faults)
      modifies this
      ensures rec == Pipeline(old(rec), mode, f)
    {
      var ok := Launch(mode, f);
      if !ok {
        EndedStays(rec, f);
        return;
      }
      ok := Test(f);
      if !ok {
        EndedStays(rec, f);
        return;
      }
      ok := SetState(Checking, f);
      if !ok {
        return;
      }
      if f.health {
        Fail();
        return;
      }
      if f.lastUpdate {
        return;
      }
      ok := SetState(Verified, f);
    }
  }

  predicate LaunchWorks(mode: InstallMode, f: Faults) {
    && !f.secrets && Validating !in f.blocked
    && (mode != Endpoint ==> !f.prepare && !f.start && Scanning !in f.blocked && Starting !in f.blocked)
    && (mode == Repository ==> Building !in f.blocked)
  }

  lemma LaunchOutcome(r: Record, mode: InstallMode, f: Faults)
    requires r.stage == Draft
    ensures var p := Launched(r, mode, f);
            && (p.Going? <==> LaunchWorks(mode, f))
            && p.rec == r.(stage := p.rec.stage)
            && (p.Going? ==> p.rec.stage == if mode == Endpoint then Validating else Starting)
            && (p.Ended? ==> InProgress(p.rec.stage) || p.rec.stage.Draft? || p.rec.stage.Failed?)
            && (p.Ended? && f.blocked == {} ==> p.rec.stage == Failed)
  {}

  lemma TestOutcome(p: Progress, f: Faults)
    requires p.Going? && (p.rec.stage.Validating? || p.rec.stage.Starting?)
    ensures var q := Tested(p, f);
            && (q.Going? <==> Testing !in f.blocked && f.contract == Verdict(true))
            && q.rec == p.rec.(stage := q.rec.stage, passed := q.rec.passed)
            && (q.rec.passed <==> if q.Going? && !f.verdictLost then true
                                  else p.rec.passed
                                       && (Testing in f.blocked || f.contract.CouldNotRun? || f.verdictLost))
            && (q.Going? ==> q.rec.stage == Testing)
            && (q.Ended? ==> q.rec.stage == if Testing in f.blocked then p.rec.stage else Failed)
  {
  }

  lemma ConcludeOutcome(p: Progress, f: Faults)
    requires p.Going? && p.rec.stage == Testing
    ensures var q := Concluded(p, f);
            && q.rec == p.rec.(stage := q.rec.stage)
            && (q.rec.stage == Verified <==>
                Checking !in f.blocked && !f.health && !f.lastUpdate && Verified !in f.blocked)
            && (InProgress(q.rec.stage) || q.rec.stage.Verified? || q.rec.stage.Failed?)
            && (f.blocked == {} && !f.lastUpdate ==> q.rec.stage.Verified? || q.rec.stage.Failed?)
  {}

  lemma EndedStays(r: Record, f: Faults)
    ensures Tested(Ended(r), f) == Ended(r) && Concluded(Ended(r), f) == Ended(r)
  {}

  /** What the pipeline leaves of a draft. A draft ends up verified exactly when nothing on its
      way fails and its contract tests ran and passed; it is marked as having passed only if
      they did, and if recording their verdict works, a verified plugin is always so marked.
      Otherwise it is failed, or where a stage update stopped it; nothing else is touched. */
  lemma PipelineOutcome(r: Record, mode: InstallMode, f: Faults)
    requires r.stage == Draft && !r.passed
    ensures var p := Pipeline(r, mode, f);
            && p == r.(stage := p.stage, passed := p.passed)
            && (p.stage == Verified <==>
                  LaunchWorks(mode, f) && f.contract == Verdict(true) && !f.health && !f.lastUpdate
                  && Testing !in f.blocked && Checking !in f.blocked && Verified !in f.blocked)
            && (p.passed ==> f.contract == Verdict(true) && !f.verdictLost)
            && (p.stage == Verified ==> (p.passed <==> !f.verdictLost))
            && (p.stage.Draft? || p.stage.Verified? || p.stage.Failed? || InProgress(p.stage))
            && (p.stage == Draft ==> p == r)
            && (f.blocked == {} && !f.lastUpdate ==> p.stage.Verified? || p.stage.Failed?)
  {
    LaunchOutcome(r, mode, f);
    var p := Launched(r, mode, f);
    if p.Going? {
      TestOutcome(p, f);
      var q := Tested(p, f);
      if q.Going? { ConcludeOutcome(q, f); } else { EndedStays(q.rec, f); }
    } else {
      EndedStays(p.rec, f);
    }
  }

  /** The stage the pipeline leaves, failure by failure in the order in which they can come: failed if a step
      fails or the plugin does not pass, and where it stood if a stage or the instance cannot be recorded. */
  function LastStage(mode: InstallMode, f: Faults): Stage {
    if f.secrets then Failed
    else if Validating in f.blocked then Draft
    else if mode == Repository && Building in f.blocked then Validating
    else if mode == Image && Scanning in f.blocked then Validating
    else if mode != Endpoint && f.prepare then Failed
    else if mode == Repository && Scanning in f.blocked then Building
    else if mode != Endpoint && Starting in f.blocked then Scanning
    else if mode != Endpoint && f.start then Failed
    else if Testing in f.blocked then if mode == Endpoint then Validating else Starting
    else if f.contract != Verdict(true) then Failed
    else if Checking in f.blocked then Testing
    else if f.health then Failed
    else if f.lastUpdate || Verified in f.blocked then Checking
    else Verified
  }

  /** Where the pipeline leaves a draft. */
  lemma PipelineLeaves(r: Record, mode: InstallMode, f: Faults)
    requires r.stage == Draft
    ensures Pipeline(r, mode, f).stage == LastStage(mode, f)
  {
    LaunchLeaves(r, mode, f);
    var p := Launched(r, mode, f);
    if p.Going? {
      TestOutcome(p, f);
      var q := Tested(p, f);
      if q.Going? { ConcludeLeaves(q, f); } else { EndedStays(q.rec, f); }
    } else {
      EndedStays(p.rec, f);
    }
  }

  lemma LaunchLeaves(r: Record, mode: InstallMode, f: Faults)
    requires r.stage == Draft
    ensures var p := Launched(r, mode, f);
            && (p.Going? <==> LaunchWorks(mode, f))
            && (p.Going? ==> p.rec.stage == if mode == Endpoint then Validating else Starting)
            && (p.Ended? ==> p.rec.stage == LastStage(mode, f))
  {}

  lemma ConcludeLeaves(p: Progress, f: Faults)
    requires p.Going? && p.rec.stage == Testing
    ensures Concluded(p, f).rec.stage ==
              if Checking in f.blocked then Testing else if f.health then Failed
              else if f.lastUpdate || Verified in f.blocked then Checking else Verified
  {}
}
