/**
 What one installer process does, as the log of events it leaves, and what any number of
 processes leave on disk. A crash, a kill or a power cut is a log cut short anywhere.
 */
module InstallerRun {
  import opened Wrappers
  import opened InstallerModel
  import opened InstallerStages

  datatype DispatchResult = DispatchResult(events: seq<Event>, caches: Caches, output: Reply<Output>)

  function Confirmed(p: Process, phase: Phase, plan: HostPlanResult): Reply<Output> {
    var options := p.command.options;
    if options.nonInteractive then
      var accepted := if phase == KernelPhase then options.acceptedKernelPlan else options.acceptedHostPlan;
      if accepted == Some(plan.Digest())
      then Returned(ConfirmOutput(true, phase == TuningPhase && options.acceptDockerGroup))
      else Returned(ConfirmOutput(false, false))
    else
      match p.oracle.confirm(phase)
      case Raised => Raised
      case Returned(false) => Returned(ConfirmOutput(false, false))
      case Returned(true) =>
        if phase == KernelPhase || plan.plan.targetUser == "root" then Returned(ConfirmOutput(true, false))
        else
          match p.oracle.dockerGroup
          case Raised => Raised
          case Returned(granted) => Returned(ConfirmOutput(true, granted))
  }

  function ConfirmPlan(p: Process, phase: Phase, caches: Caches, plan: Option<HostPlanResult>): DispatchResult {
    if plan.None? then DispatchResult([], caches, Raised)
    else
      var output := Confirmed(p, phase, plan.value);
      var accepted := output.Returned? && output.value.ConfirmOutput? && output.value.accepted;
      DispatchResult(
        if accepted
        then [Accepted(phase, plan.value.Digest(), plan.value.adapterId, output.value.dockerGroup,
                       p.command.installer)]
        else [],
        caches, output)
  }

  function Plain(reply: Reply<StageResult>): Reply<Output> {
    match reply
    case Raised => Raised
    case Returned(result) => Returned(PlainOutput(result))
  }

  function ApplyPlan(
    p: Process, stage: Stage, phase: Phase, caches: Caches, plan: Option<HostPlanResult>, docker: bool): DispatchResult
  {
    if plan.None? then DispatchResult([], caches, Raised)
    else DispatchResult(
      [Applied(phase, plan.value, docker, p.command.installer)], caches, Plain(p.oracle.plain(stage)))
  }

  function Observe(p: Process, st: InstallState, caches: Caches, stage: Stage): DispatchResult {
    if st.targetUser.None? && stage != HostPreflight then DispatchResult([], caches, Raised)
    else
      match p.oracle.report(stage)
      case Raised => DispatchResult([], caches, Raised)
      case Returned(report) => DispatchResult([Verified(stage, report)], caches, Returned(ReportOutput(report)))
  }

  function MakePlan(p: Process, st: InstallState, phase: Phase): Option<HostPlanResult> {
    if st.targetUser.None? then None else ReadPlan(p, phase, None)
  }

  function PlanReply(caches: Caches, plan: Option<HostPlanResult>): DispatchResult {
    DispatchResult([], caches, if plan.None? then Raised else Returned(PlanOutput(plan.value)))
  }

  function RebootPending(p: Process, st: InstallState): Reply<Output> {
    if st.kernel.rebootBootId.None? then Returned(PlainOutput(StageResult([], Passed)))
    else if !p.bootIdReadable then Raised
    else if p.bootId != st.kernel.rebootBootId.value then Returned(PlainOutput(StageResult([], Passed)))
    else Returned(PlainOutput(StageResult([], ActionRequired)))
  }

  /** One call of the action behind a stage. */
  function Dispatch(p: Process, st: InstallState, caches: Caches, stage: Stage): DispatchResult {
    match stage
    case HostPreflight => Observe(p, st, caches, stage)
    case KernelPlan =>
      var plan := MakePlan(p, st, KernelPhase);
      PlanReply(if plan.Some? then caches.(kernelPlan := plan) else caches, plan)
    case KernelConfirm =>
      ConfirmPlan(p, KernelPhase, CacheKernelPlan(p, st, caches), ResolvedKernelPlan(p, st, caches))
    case KernelApply =>
      ApplyPlan(p, stage, KernelPhase, CacheKernelPlan(p, st, caches), ResolvedKernelPlan(p, st, caches), false)
    case KernelRebootPending => DispatchResult([], caches, RebootPending(p, st))
    case KernelVerify => Observe(p, st, caches, stage)
    case HostPlan =>
      var plan := MakePlan(p, st, TuningPhase);
      PlanReply(if plan.Some? then caches.(hostPlan := plan) else caches, plan)
    case HostConfirm =>
      ConfirmPlan(p, TuningPhase, CacheHostPlan(p, st, caches), ResolvedHostPlan(p, st, caches))
    case HostApply =>
      ApplyPlan(
        p, stage, TuningPhase, CacheHostPlan(p, st, caches), ResolvedHostPlan(p, st, caches),
        st.dockerGroupAccepted)
    case HostVerify => Observe(p, st, caches, stage)
    case ReleaseResolve =>
      (match p.oracle.release
       case Raised => DispatchResult([], caches, Raised)
       case Returned(release) =>
         DispatchResult([], caches.(release := Some(release)), Returned(ReleaseOutput(release))))
    case ImagePullOrBuild =>
      var caches' := CacheRelease(p, caches);
      if ResolvedRelease(p, st, caches).None? then DispatchResult([], caches', Raised)
      else
        (match p.oracle.images
         case Raised => DispatchResult([], caches', Raised)
         case Returned(images) => DispatchResult([], caches', Returned(AcquiredOutput(images))))
    case ImageVerify =>
      DispatchResult([], caches, if st.torch.reference.None? then Raised else Plain(p.oracle.plain(stage)))
    case Complete => DispatchResult([], caches, Returned(PlainOutput(StageResult([], Passed))))
    case _ => DispatchResult([], caches, Plain(p.oracle.plain(stage)))
  }

  /** One iteration of the stage loop. */
  datatype Step = Step(events: seq<Event>, st: InstallState, caches: Caches, halted: bool)

  /** Applies a blocked or accepted output and records its reports; None when that raises. */
  function Recorded(
    p: Process, st: InstallState, caches: Caches, stage: Stage, output: Output, result: StageResult):
    Option<InstallState>
  {
    var applied :=
      if result.outcome == OutcomeBlocked && !output.ReportOutput? then Some(st)
      else ApplyOutput(p, st, caches, stage, output);
    if applied.None? then None else Some(WithReports(p, applied.value, result))
  }

  /** Re-runs a read-only guard whose stage is already complete. */
  function GuardStep(p: Process, st: InstallState, caches: Caches, stage: Stage): Step {
    var d := Dispatch(p, st, caches, stage);
    var events := [Dispatched(stage, st)] + d.events;
    if d.output.Raised? then Step(events, st, d.caches, true)
    else
      var result := ResultOf(stage, d.output.value);
      if result.None? then Step(events + [Failed], st, d.caches, true)
      else
        var st' := Recorded(p, st, d.caches, stage, d.output.value, result.value);
        if st'.None? then Step(events + [Failed], st, d.caches, true)
        else Step(
          events + [Saved(st'.value)], st'.value, d.caches, result.value.outcome == OutcomeBlocked)
  }

  function CompletedStep(p: Process, st: InstallState, caches: Caches, stage: Stage): Step
    requires stage in st.completed
  {
    var inputs := InputsOf(p.command, p.facts, stage, st);
    if inputs.None? then Step([Failed], st, caches, true)
    else if InputDigest(inputs.value) != st.completed[stage] then Step([InputChanged(stage)], st, caches, true)
    else if stage in Guards() then GuardStep(p, st, caches, stage)
    else Step([], st, caches, false)
  }

  /** Whether the disk check lets the stage start, and the caches it leaves. */
  function DiskCheck(p: Process, st: InstallState, caches: Caches, stage: Stage): (Caches, bool) {
    if stage == ImagePullOrBuild then
      (CacheRelease(p, caches), ResolvedRelease(p, st, caches).Some? && p.oracle.disk(stage) == Enough)
    else if stage == ProjectInit then (caches, p.oracle.disk(stage) == Enough)
    else (caches, true)
  }

  /** Executes a stage for the first time and checkpoints it. */
  function FreshStep(p: Process, st: InstallState, caches: Caches, stage: Stage, next: Stage): Step {
    var inputs := InputsOf(p.command, p.facts, stage, st);
    if st.currentStage != stage then Step([IllegalTransition], st, caches, true)
    else if inputs.None? then Step([Failed], st, caches, true)
    else
      var (caches', enough) := DiskCheck(p, st, caches, stage);
      if !enough then Step([Failed], st, caches', true)
      else
        var d := Dispatch(p, st, caches', stage);
        var events := [Dispatched(stage, st)] + d.events;
        if d.output.Raised? then Step(events, st, d.caches, true)
        else FinishStage(p, st, d.caches, stage, next, inputs.value, d.output.value, events)
  }

  /** The state saved when a stage ends: blocked, waiting for the reboot, or complete. */
  function Settled(
    p: Process, st: InstallState, caches: Caches, stage: Stage, next: Stage,
    inputs: StageInputs, output: Output, result: StageResult): Option<InstallState>
  {
    if result.outcome == OutcomeBlocked then Recorded(p, st, caches, stage, output, result)
    else if stage == KernelRebootPending && result.outcome == ActionRequired then
      Some(WithReports(p, st, result))
    else
      var applied := ApplyOutput(p, st, caches, stage, output);
      if applied.None? then None
      else Some(Checkpoint(p, applied.value, stage, inputs, next, result))
  }

  function FinishStage(
    p: Process, st: InstallState, caches: Caches, stage: Stage, next: Stage,
    inputs: StageInputs, output: Output, events: seq<Event>): Step
  {
    var result := ResultOf(stage, output);
    var saved := if result.None? then None
                 else Settled(p, st, caches, stage, next, inputs, output, result.value);
    if saved.None? then Step(events + [Failed], st, caches, true)
    else Step(events + [Saved(saved.value)], saved.value, caches, result.value.outcome != Passed)
  }

  /** The stage `_run_stages` visits at index `i`, and the stage checkpointed after it. */
  function StageStep(p: Process, i: nat, st: InstallState, caches: Caches): Step
    requires i < |StageOrder(p.command.options.mode)|
  {
    var order := StageOrder(p.command.options.mode);
    var stage := order[i];
    if stage in st.completed then CompletedStep(p, st, caches, stage)
    else FreshStep(p, st, caches, stage, if i + 1 < |order| then order[i + 1] else stage)
  }

  /** The log of the stage loop from index `i` on. */
  function RunFrom(p: Process, i: nat, st: InstallState, caches: Caches): seq<Event>
    requires i <= |StageOrder(p.command.options.mode)|
    decreases |StageOrder(p.command.options.mode)| - i
  {
    if i == |StageOrder(p.command.options.mode)| then []
    else
      var step := StageStep(p, i, st, caches);
      step.events + if step.halted then [] else RunFrom(p, i + 1, step.st, step.caches)
  }

  /** What a state file holds: the record of schema one, two, early three or three. */
  datatype Payload = Payload(
    schemaVersion: int, core: Core, hostVerification: Option<Verification>,
    kernel: Option<KernelFields>, displayManagerWasLoaded: Option<bool>)

  datatype Core = Core(
    mode: Mode, targetUser: Option<string>, installer: Identity, projectPath: string,
    currentStage: Stage, completed: map<Stage, InputDigest>,
    rebootBootId: Option<BootId>, createdAt: string, updatedAt: string,
    hostPlanDigest: Option<PlanDigest>, hostAdapterId: Option<string>, dockerGroupAccepted: bool,
    releaseId: Option<string>, sourceRevision: Option<string>, base: ImageFields, torch: ImageFields,
    reports: seq<string>)

  /** The state file; `Undecodable` is one that is not a JSON object of known keys. */
  datatype Stored = Absent | Undecodable | File(payload: Payload)

  function Encode(st: InstallState): Payload {
    Payload(
      3,
      Core(
        st.mode, st.targetUser, st.installer, st.projectPath, st.currentStage, st.completed,
        st.rebootBootId, st.createdAt, st.updatedAt, st.hostPlanDigest, st.hostAdapterId,
        st.dockerGroupAccepted, st.releaseId, st.sourceRevision, st.base, st.torch, st.reports),
      Some(st.hostVerification), Some(st.kernel), Some(st.displayManagerWasLoaded))
  }

  function RestartFullHostAudit(payload: Payload): Payload {
    payload.(
      core := payload.core.(
        currentStage := Bootstrap, completed := map[], rebootBootId := None,
        hostPlanDigest := None, hostAdapterId := None, dockerGroupAccepted := false),
      hostVerification := Some(NOT_VERIFIED), kernel := Some(NO_KERNEL),
      displayManagerWasLoaded := Some(false))
  }

  function MigrateSchemaTwo(payload: Payload): Payload {
    var migrated := payload.(
      schemaVersion := 3, kernel := Some(NO_KERNEL), displayManagerWasLoaded := Some(false));
    if payload.core.mode == Full then RestartFullHostAudit(migrated) else migrated
  }

  /** The payload in the present schema; None when its keys do not fit its version. */
  function Migrate(payload: Payload): Option<Payload> {
    if payload.schemaVersion == 1 then
      if payload.hostVerification.Some? || payload.kernel.Some? || payload.displayManagerWasLoaded.Some? then None
      else Some(MigrateSchemaTwo(payload.(schemaVersion := 2, hostVerification := Some(NOT_VERIFIED))))
    else if payload.schemaVersion == 2 then
      if payload.hostVerification.None? || payload.kernel.Some? || payload.displayManagerWasLoaded.Some? then None
      else Some(MigrateSchemaTwo(payload))
    else if payload.schemaVersion != 3 || payload.hostVerification.None? || payload.kernel.None? then None
    else if payload.displayManagerWasLoaded.Some? then Some(payload)
    else
      var migrated := payload.(displayManagerWasLoaded := Some(false));
      Some(if payload.core.mode == Full then RestartFullHostAudit(migrated) else migrated)
  }

  function Decode(payload: Payload): Option<InstallState> {
    var migrated := Migrate(payload);
    if migrated.None? || migrated.value.hostVerification.None? || migrated.value.kernel.None?
      || migrated.value.displayManagerWasLoaded.None?
    then None
    else
      var m, c := migrated.value, migrated.value.core;
      Some(InstallState(
        c.mode, c.targetUser, c.installer, c.projectPath, c.currentStage, c.completed,
        c.rebootBootId, c.createdAt, c.updatedAt, c.hostPlanDigest, c.hostAdapterId,
        c.dockerGroupAccepted, c.releaseId, c.sourceRevision, c.base, c.torch, c.reports,
        m.hostVerification.value, m.kernel.value, m.displayManagerWasLoaded.value))
  }

  /** A record of an older schema. */
  predicate Legacy(payload: Payload) {
    payload.schemaVersion != 3 || payload.displayManagerWasLoaded.None?
  }

  /** What a process does before its first stage, and the state it starts the stages in. */
  datatype Start = Start(events: seq<Event>, st: Option<InstallState>)

  function Begin(p: Process, stored: Stored): Start {
    var dryRun := p.command.options.dryRun;
    match stored
    case Undecodable => Start([Failed], None)
    case Absent =>
      var st := NewState(p);
      if dryRun then Start([Restarted], None) else Start([Restarted, Saved(st)], Some(st))
    case File(payload) =>
      var loaded := Decode(payload);
      if loaded.None? then Start([Failed], None)
      else
        var restart := if Legacy(payload) && payload.core.mode == Full then [Restarted] else [];
        var st := if dryRun then loaded.value else AdoptUpdate(p, loaded.value);
        if !ValidTransition(p.command.options.mode, st) then Start(restart + [Failed], None)
        else if dryRun then Start(restart, None)
        else Start(restart + (if st != loaded.value then [Saved(st)] else []), Some(st))
  }

  /** The whole log of one process that is never interrupted. */
  function Run(p: Process, stored: Stored): seq<Event> {
    var start := Begin(p, stored);
    start.events + if start.st.None? then [] else RunFrom(p, 0, start.st.value, NO_CACHES)
  }

  /** The state file after a log was played: the last save, or what was there before. */
  function After(stored: Stored, log: seq<Event>): Stored
    decreases |log|
  {
    if log == [] then stored
    else if log[|log| - 1].Saved? then File(Encode(log[|log| - 1].saved))
    else After(stored, log[..|log| - 1])
  }

  /** A process and how many of its events happened before it ended or was killed. */
  datatype Life = Life(process: Process, cut: nat)

  function LogOf(life: Life, stored: Stored): seq<Event> {
    var log := Run(life.process, stored);
    log[..if life.cut <= |log| then life.cut else |log|]
  }

  /** The state file a life leaves; an undecodable file is moved aside. */
  function LeftBy(life: Life, stored: Stored): Stored {
    var log := LogOf(life, stored);
    if (stored.Undecodable? || (stored.File? && Decode(stored.payload).None?)) && log != [] then Absent
    else After(stored, log)
  }

  /** The state file after any number of lives, the last one last. */
  function StoredAfter(initial: Stored, lives: seq<Life>): Stored
    decreases |lives|
  {
    if lives == [] then initial
    else LeftBy(lives[|lives| - 1], StoredAfter(initial, lives[..|lives| - 1]))
  }

  /** Everything that happened during the lives, in order. */
  function History(initial: Stored, lives: seq<Life>): seq<Event>
    decreases |lives|
  {
    if lives == [] then []
    else
      var earlier := lives[..|lives| - 1];
      History(initial, earlier) + LogOf(lives[|lives| - 1], StoredAfter(initial, earlier))
  }
}
