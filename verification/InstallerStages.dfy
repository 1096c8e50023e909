/**
 The pure steps of the workflow: which values are hashed for a stage, what an output
 changes in the state, when a state may be resumed, and when a newer installer may
 take a state over.
 */
module InstallerStages {
  import opened Wrappers
  import opened InstallerModel

  function Guards(): set<Stage> { {KernelVerify, HostVerify} }

  /** The digest recorded for a file, or None when the file cannot be read at all. */
  function FileDigest(file: FileRead): Option<Option<string>> {
    match file
    case Missing => Some(None)
    case Unreadable => None
    case Content(digest) => Some(Some(digest))
  }

  function Source(options: Options): ImageSource {
    if options.imageSource.Some? then options.imageSource.value else Pull
  }

  /** The values hashed for a stage; None when reading them raises. */
  function ValuesOf(command: Command, facts: Facts, stage: Stage, st: InstallState): Option<InputValues> {
    var options := command.options;
    match stage
    case Bootstrap =>
      Some(BootstrapValues(command.installer, options.projectDir, options.projectName, options.targetUser))
    case HostPreflight => Some(UserValues(st.targetUser))
    case ContainerHostCheck => Some(UserValues(st.targetUser))
    case KernelPlan => Some(PlanValues(st.targetUser, KernelPhase))
    case KernelConfirm =>
      Some(KernelConfirmValues(
        st.kernel.planDigest, options.nonInteractive,
        if options.nonInteractive then options.acceptedKernelPlan else None))
    case KernelApply => Some(KernelApplyValues(st.kernel.planDigest, st.hostAdapterId))
    case KernelRebootPending => Some(KernelBoot(st))
    case KernelVerify => Some(KernelBoot(st))
    case HostPlan =>
      Some(TuningPlanValues(st.targetUser, st.kernel.verification.status, st.kernel.verification.kernel))
    case HostConfirm =>
      Some(HostConfirmValues(
        st.hostPlanDigest, options.nonInteractive,
        if options.nonInteractive then options.acceptedHostPlan else None,
        if options.nonInteractive then Some(options.acceptDockerGroup) else None))
    case HostApply => Some(HostApplyValues(st.hostPlanDigest, st.hostAdapterId, st.dockerGroupAccepted))
    case HostVerify => Some(HostVerifyValues(st.hostPlanDigest, st.hostAdapterId))
    case ReleaseResolve =>
      var digest := FileDigest(facts.manifest);
      if digest.None? then None
      else Some(ReleaseValues(options.manifestPath, digest.value, st.hostPlanDigest))
    case ImagePullOrBuild =>
      if facts.release.None? then None
      else
        var release := facts.release.value;
        Some(AcquireValues(
          release.releaseId, release.sourceRevision, release.base, release.torch, Source(options)))
    case ImageVerify => Some(TorchValues(st.torch))
    case ProjectInit => Some(ProjectInitValues(options.projectDir, options.projectName, st.torch))
    case ProjectVerify => Project(command, facts, st)
    case Complete => Project(command, facts, st)
  }

  function KernelBoot(st: InstallState): InputValues {
    KernelBootValues(
      st.kernel.planDigest, st.hostAdapterId, st.kernel.rebootBootId, st.kernel.recoveryKernel,
      st.displayManagerWasLoaded, st.kernel.displayManagerWasActive)
  }

  function Project(command: Command, facts: Facts, st: InstallState): Option<InputValues> {
    var digest := FileDigest(facts.projectConfig);
    if digest.None? then None
    else Some(ProjectValues(command.options.projectDir, digest.value, st.torch.manifest))
  }

  function InputsOf(command: Command, facts: Facts, stage: Stage, st: InstallState): Option<StageInputs> {
    var values := ValuesOf(command, facts, stage, st);
    if values.None? then None
    else Some(StageInputs(stage, command.options.mode, values.value, facts.observed(stage)))
  }

  /** The reports in `kept` and then those of `rest`, each where it first occurs. */
  function FirstOnes(kept: seq<string>, rest: seq<string>): seq<string>
    decreases |rest|
  {
    if rest == [] then kept
    else FirstOnes(if rest[0] in kept then kept else kept + [rest[0]], rest[1..])
  }

  /** The reports already known followed by the new ones, each kept once. */
  function MergeReports(known: seq<string>, added: seq<string>): seq<string> { FirstOnes([], known + added) }

  /** A plan read for the first time in this process, or the one it already holds. */
  function ReadPlan(p: Process, phase: Phase, cached: Option<HostPlanResult>): Option<HostPlanResult> {
    if cached.Some? then cached
    else
      match p.oracle.plan(phase)
      case Returned(plan) => Some(plan)
      case Raised => None
  }

  function CacheKernelPlan(p: Process, st: InstallState, caches: Caches): Caches {
    if st.targetUser.None? || st.kernel.planDigest.None? then caches
    else caches.(kernelPlan := ReadPlan(p, KernelPhase, caches.kernelPlan))
  }

  /** The kernel plan that matches what the state recorded, or None when the lookup raises. */
  function ResolvedKernelPlan(p: Process, st: InstallState, caches: Caches): Option<HostPlanResult> {
    if st.targetUser.None? || st.kernel.planDigest.None? then None
    else
      var plan := ReadPlan(p, KernelPhase, caches.kernelPlan);
      if plan.None?
        || Some(plan.value.Digest()) != st.kernel.planDigest
        || Some(plan.value.adapterId) != st.hostAdapterId
        || plan.value.plan.phase != KernelPhase
      then None
      else plan
  }

  function CacheHostPlan(p: Process, st: InstallState, caches: Caches): Caches {
    if st.targetUser.None? || st.hostPlanDigest.None? then caches
    else caches.(hostPlan := ReadPlan(p, TuningPhase, caches.hostPlan))
  }

  /** As for the kernel, except that the phase is not compared. */
  function ResolvedHostPlan(p: Process, st: InstallState, caches: Caches): Option<HostPlanResult> {
    if st.targetUser.None? || st.hostPlanDigest.None? then None
    else
      var plan := ReadPlan(p, TuningPhase, caches.hostPlan);
      if plan.None?
        || Some(plan.value.Digest()) != st.hostPlanDigest
        || Some(plan.value.adapterId) != st.hostAdapterId
      then None
      else plan
  }

  function CacheRelease(p: Process, caches: Caches): Caches {
    if caches.release.Some? then caches else caches.(release := p.facts.release)
  }

  function ResolvedRelease(p: Process, st: InstallState, caches: Caches): Option<Release> {
    var release := CacheRelease(p, caches).release;
    if release.None?
      || st.releaseId != Some(release.value.releaseId)
      || st.sourceRevision != Some(release.value.sourceRevision)
    then None
    else release
  }

  /** The state after an output is applied; None when the output is refused. */
  function ApplyOutput(p: Process, st: InstallState, caches: Caches, stage: Stage, output: Output):
    Option<InstallState>
  {
    match stage
    case Bootstrap => Some(st.(installer := p.command.installer))
    case KernelPlan =>
      if !output.PlanOutput? || output.plan.plan.phase != KernelPhase then None
      else Some(st.(
        kernel := st.kernel.(planDigest := Some(output.plan.Digest())),
        hostAdapterId := Some(output.plan.adapterId)))
    case KernelApply =>
      var plan := ResolvedKernelPlan(p, st, caches);
      if plan.None? || (plan.value.plan.rebootRequired && !p.bootIdReadable) then None
      else Some(st.(
        kernel := st.kernel.(
          rebootBootId := if plan.value.plan.rebootRequired then Some(p.bootId) else None,
          recoveryKernel := Some(plan.value.runningKernel),
          displayManagerWasActive := plan.value.displayManagerActive),
        displayManagerWasLoaded := plan.value.displayManagerLoaded))
    case KernelVerify =>
      if !output.ReportOutput? then Some(st)
      else if output.report.kernel.None? then None
      else Some(st.(kernel := st.kernel.(verification := VerificationOf(output.report))))
    case HostPlan =>
      if !output.PlanOutput? || output.plan.plan.phase != TuningPhase then None
      else if st.hostAdapterId.Some? && st.hostAdapterId.value != output.plan.adapterId then None
      else Some(st.(
        hostPlanDigest := Some(output.plan.Digest()), hostAdapterId := Some(output.plan.adapterId)))
    case HostConfirm =>
      if !output.ConfirmOutput? then None else Some(st.(dockerGroupAccepted := output.dockerGroup))
    case HostVerify =>
      if !output.ReportOutput? then Some(st)
      else if output.report.kernel.None? then None
      else Some(st.(hostVerification := VerificationOf(output.report)))
    case ReleaseResolve =>
      if !output.ReleaseOutput? then None
      else
        var release := output.release;
        if p.command.options.mode == Full
          && (st.hostAdapterId.None? || st.hostAdapterId.value !in release.adapterIds)
        then None
        else Some(st.(
          releaseId := Some(release.releaseId), sourceRevision := Some(release.sourceRevision),
          base := FieldsOf(release.base), torch := FieldsOf(release.torch)))
    case ImagePullOrBuild =>
      if !output.AcquiredOutput? then Some(st)
      else
        (match output.images
         case Pulled(base, torch) =>
           if base.manifest.None? || torch.manifest.None? then None
           else Some(st.(
             base := ImageFields(Some(base.reference), base.manifest, Some(base.configDigest)),
             torch := ImageFields(Some(torch.reference), torch.manifest, Some(torch.configDigest))))
         case Built(baseReference, baseConfig, torchReference, torchConfig) =>
           Some(st.(
             releaseId := Some("local"),
             base := ImageFields(Some(baseReference), Some(baseReference), Some(baseConfig)),
             torch := ImageFields(Some(torchReference), Some(torchReference), Some(torchConfig)))))
    case _ => Some(st)
  }

  function VerificationOf(report: Report): Verification {
    Verification(Some(report.status), report.kernel, report.findings)
  }

  function FieldsOf(image: Image): ImageFields {
    ImageFields(Some(image.reference), Some(image.manifestDigest), Some(image.configDigest))
  }

  /** How the loop reads an output; None when reading it raises. */
  function ResultOf(stage: Stage, output: Output): Option<StageResult> {
    match output
    case PlainOutput(result) => Some(result)
    case ConfirmOutput(accepted, _) => Some(StageResult([], if accepted then Passed else OutcomeBlocked))
    case ReportOutput(report) =>
      var blocked :=
        match stage
        case HostPreflight => report.status == Blocked
        case KernelVerify => report.status != Pass
        case HostVerify => report.status != Pass && report.status != Unverified
        case _ => false;
      if stage == HostVerify && report.status == Unverified && report.kernel.None? then None
      else Some(StageResult([], if blocked then OutcomeBlocked else Passed))
    case _ => Some(StageResult([], Passed))
  }

  function WithReports(p: Process, st: InstallState, result: StageResult): InstallState {
    st.(reports := MergeReports(st.reports, result.reports), updatedAt := p.now)
  }

  /** The state saved when a stage is complete: its output applied, its inputs recorded. */
  function Checkpoint(
    p: Process, applied: InstallState, stage: Stage, inputs: StageInputs, next: Stage, result: StageResult):
    InstallState
  {
    applied.(
      currentStage := next, completed := applied.completed[stage := InputDigest(inputs)],
      reports := MergeReports(applied.reports, result.reports), updatedAt := p.now)
  }

  /** The stages before index `n` of the order. */
  function Before(mode: Mode, n: nat): set<Stage>
    requires n <= |StageOrder(mode)|
  {
    set stage | stage in StageOrder(mode)[..n]
  }

  function StageAfter(mode: Mode, n: nat): Stage {
    if n < |StageOrder(mode)| then StageOrder(mode)[n] else Complete
  }

  /** The state has completed exactly the first `n` stages of its mode. */
  predicate CompletedUpTo(mode: Mode, st: InstallState, n: nat) {
    && n <= |StageOrder(mode)|
    && st.mode == mode
    && st.completed.Keys == Before(mode, n)
    && st.currentStage == StageAfter(mode, n)
  }

  /** The states a process of this mode agrees to resume. */
  predicate ValidTransition(mode: Mode, st: InstallState) {
    exists n: nat | n <= |StageOrder(mode)| :: CompletedUpTo(mode, st, n)
  }

  function NewState(p: Process): InstallState {
    var options := p.command.options;
    InstallState(
      options.mode,
      Some(if options.targetUser.Some? then options.targetUser.value else p.invokingUser),
      p.command.installer, options.projectDir, StageOrder(options.mode)[0], map[],
      None, p.now, p.now, None, None, false, None, None, NO_IMAGE, NO_IMAGE, [],
      NOT_VERIFIED, NO_KERNEL, false)
  }

  predicate CanAdoptUpdate(command: Command, st: InstallState) {
    var previous, current := st.installer.version, command.installer.version;
    var sameSeries := previous.series.Some? && previous.series == current.series;
    match st.mode
    case Full =>
      var diagnosticPatch := previous.text == "0.3.0" && current.text == "0.3.1";
      var start := if diagnosticPatch then 6 else 10;
      st.currentStage in FULL_STAGE_ORDER[start..] && sameSeries
    case Container =>
      && Bootstrap in st.completed
      && st.currentStage in CONTAINER_STAGE_ORDER[1..]
      && (sameSeries || (previous.series == Some((0, 2)) && current.series == Some((0, 3))))
  }

  function AdoptUpdate(p: Process, st: InstallState): InstallState {
    var command := p.command;
    if st.installer == command.installer then st
    else if !CanAdoptUpdate(command, st) || Bootstrap !in st.completed then st
    else
      var inputs := InputsOf(command, p.facts, Bootstrap, st).value;
      var previous := inputs.(values := inputs.values.(installer := st.installer));
      if InputDigest(previous) != st.completed[Bootstrap] then st
      else st.(
        installer := command.installer,
        completed := st.completed[Bootstrap := InputDigest(inputs)],
        updatedAt := p.now)
  }
}
