/**
 The records the installer carries: stages, options, the saved state, the values
 hashed for each stage, the outside world of one process, and the events a process
 leaves behind.
 */
module InstallerModel {
  import opened Wrappers

  datatype Mode = Full | Container

  datatype Stage =
    | Bootstrap | HostPreflight | KernelPlan | KernelConfirm | KernelApply
    | KernelRebootPending | KernelVerify | HostPlan | HostConfirm | HostApply
    | HostVerify | ContainerHostCheck | ReleaseResolve | ImagePullOrBuild
    | ImageVerify | ProjectInit | ProjectVerify | Complete

  const FULL_STAGE_ORDER: seq<Stage> :=
    [Bootstrap, HostPreflight, KernelPlan, KernelConfirm, KernelApply,
     KernelRebootPending, KernelVerify, HostPlan, HostConfirm, HostApply, HostVerify,
     ReleaseResolve, ImagePullOrBuild, ImageVerify, ProjectInit, ProjectVerify, Complete]

  const CONTAINER_STAGE_ORDER: seq<Stage> :=
    [Bootstrap, ContainerHostCheck, ReleaseResolve, ImagePullOrBuild, ImageVerify,
     ProjectInit, ProjectVerify, Complete]

  function StageOrder(mode: Mode): (order: seq<Stage>) {
    match mode
    case Full => FULL_STAGE_ORDER
    case Container => CONTAINER_STAGE_ORDER
  }

  type BootId = string

  datatype Phase = KernelPhase | TuningPhase

  datatype Plan = Plan(
    phase: Phase, supported: bool, targetUser: string, actions: seq<string>, rebootRequired: bool)

  /** The digest of a plan payload is injective; a digest typed by an operator may be of nothing. */
  datatype PlanDigest = PlanDigest(plan: Plan) | ForeignDigest(text: string)

  datatype HostPlanResult = HostPlanResult(
    plan: Plan, adapterId: string, runningKernel: string,
    displayManagerLoaded: bool, displayManagerActive: bool)
  {
    function Digest(): PlanDigest { PlanDigest(plan) }
  }

  datatype Status = Pass | ChangeRequired | RebootRequired | Unverified | Blocked

  /** `kernel` is None when the report has no valid kernel identity. */
  datatype Report = Report(status: Status, kernel: Option<string>, findings: seq<string>)

  datatype Image = Image(reference: string, manifestDigest: string, configDigest: string)

  datatype Release = Release(
    releaseId: string, sourceRevision: string, adapterIds: seq<string>, base: Image, torch: Image)

  /** `manifest` is None when the reference carries no digest. */
  datatype VerifiedImage = VerifiedImage(
    reference: string, manifest: Option<string>, configDigest: string)

  datatype Acquired =
    | Pulled(base: VerifiedImage, torch: VerifiedImage)
    | Built(baseReference: string, baseConfig: string, torchReference: string, torchConfig: string)

  datatype Outcome = Passed | ActionRequired | OutcomeBlocked

  datatype StageResult = StageResult(reports: seq<string>, outcome: Outcome)

  datatype Output =
    | PlanOutput(plan: HostPlanResult)
    | ReportOutput(report: Report)
    | ConfirmOutput(accepted: bool, dockerGroup: bool)
    | ReleaseOutput(release: Release)
    | AcquiredOutput(images: Acquired)
    | PlainOutput(result: StageResult)

  /** An installer version string together with the major and minor number it parses to. */
  datatype Version = Version(text: string, series: Option<(nat, nat)>)

  datatype Identity = Identity(version: Version, revision: string, sourceRoot: string)

  datatype ImageSource = Pull | Build

  datatype Options = Options(
    mode: Mode, nonInteractive: bool, dryRun: bool, projectDir: string, projectName: string,
    imageSource: Option<ImageSource>, targetUser: Option<string>,
    acceptedKernelPlan: Option<PlanDigest>, acceptedHostPlan: Option<PlanDigest>,
    acceptDockerGroup: bool, manifestPath: string)

  /** The command line together with the installer that executes it. */
  datatype Command = Command(options: Options, installer: Identity)

  datatype InputValues =
    | BootstrapValues(installer: Identity, projectPath: string, projectName: string, user: Option<string>)
    | UserValues(targetUser: Option<string>)
    | PlanValues(planUser: Option<string>, phase: Phase)
    | KernelConfirmValues(
        kernelPlan: Option<PlanDigest>, nonInteractive: bool, acceptedKernelPlan: Option<PlanDigest>)
    | KernelApplyValues(appliedPlan: Option<PlanDigest>, appliedAdapter: Option<string>)
    | KernelBootValues(
        bootPlan: Option<PlanDigest>, bootAdapter: Option<string>, rebootBootId: Option<BootId>,
        recoveryKernel: Option<string>, managerLoaded: bool, managerActive: bool)
    | TuningPlanValues(
        tuningUser: Option<string>, kernelStatus: Option<Status>, kernelName: Option<string>)
    | HostConfirmValues(
        hostPlan: Option<PlanDigest>, unattended: bool, acceptedHostPlan: Option<PlanDigest>,
        acceptDockerGroup: Option<bool>)
    | HostApplyValues(
        hostApplied: Option<PlanDigest>, hostAdapter: Option<string>, dockerGroup: bool)
    | HostVerifyValues(verifiedPlan: Option<PlanDigest>, verifiedAdapter: Option<string>)
    | ReleaseValues(
        manifestPath: string, manifestDigest: Option<string>, releasePlan: Option<PlanDigest>)
    | AcquireValues(
        releaseId: string, sourceRevision: string, base: Image, torch: Image, source: ImageSource)
    | TorchValues(torchImage: ImageFields)
    | ProjectInitValues(initPath: string, initName: string, initImage: ImageFields)
    | ProjectValues(
        projectDir: string, configDigest: Option<string>, torchManifest: Option<string>)

  /** The record hashed for one stage. */
  datatype StageInputs = StageInputs(stage: Stage, mode: Mode, values: InputValues, observed: string)

  /** SHA-256 of the canonical JSON of a stage record, taken as injective. */
  datatype InputDigest = InputDigest(inputs: StageInputs)

  datatype ImageFields = ImageFields(
    reference: Option<string>, manifest: Option<string>, config: Option<string>)

  const NO_IMAGE := ImageFields(None, None, None)

  datatype Verification = Verification(
    status: Option<Status>, kernel: Option<string>, findings: seq<string>)

  const NOT_VERIFIED := Verification(None, None, [])

  datatype KernelFields = KernelFields(
    planDigest: Option<PlanDigest>, rebootBootId: Option<BootId>, recoveryKernel: Option<string>,
    displayManagerWasActive: bool, verification: Verification)

  const NO_KERNEL := KernelFields(None, None, None, false, NOT_VERIFIED)

  datatype InstallState = InstallState(
    mode: Mode, targetUser: Option<string>, installer: Identity, projectPath: string,
    currentStage: Stage, completed: map<Stage, InputDigest>,
    rebootBootId: Option<BootId>, createdAt: string, updatedAt: string,
    hostPlanDigest: Option<PlanDigest>, hostAdapterId: Option<string>, dockerGroupAccepted: bool,
    releaseId: Option<string>, sourceRevision: Option<string>, base: ImageFields, torch: ImageFields,
    reports: seq<string>, hostVerification: Verification, kernel: KernelFields,
    displayManagerWasLoaded: bool)

  datatype FileRead = Missing | Unreadable | Content(digest: string)

  /**
   What the process can read besides its own state: the release manifest (its bytes and what
   loading it gives), the project configuration and the facts observed for a stage.
   */
  datatype Facts = Facts(
    manifest: FileRead, release: Option<Release>, projectConfig: FileRead,
    observed: Stage -> string)

  /** An action returns, or ends the dispatch with an exception or an interrupt. */
  datatype Reply<+T> = Returned(value: T) | Raised

  datatype DiskReply = Enough | Shortage | NoEstimate

  /** The answers of the host, Docker, the network and the operator during one process. */
  datatype Oracle = Oracle(
    plan: Phase -> Reply<HostPlanResult>,
    report: Stage -> Reply<Report>,
    plain: Stage -> Reply<StageResult>,
    release: Reply<Release>,
    images: Reply<Acquired>,
    confirm: Phase -> Reply<bool>,
    dockerGroup: Reply<bool>,
    disk: Stage -> DiskReply)

  /** One installer process: what it was asked, what it can see, and the boot it runs under. */
  datatype Process = Process(
    command: Command, facts: Facts, oracle: Oracle, bootId: BootId, bootIdReadable: bool,
    invokingUser: string, now: string)

  /** The fields of the workflow object that live as long as the process. */
  datatype Caches = Caches(
    kernelPlan: Option<HostPlanResult>, hostPlan: Option<HostPlanResult>, release: Option<Release>)

  const NO_CACHES := Caches(None, None, None)

  datatype Event =
    | Restarted
    | Dispatched(stage: Stage, state: InstallState)
    | Accepted(
        phase: Phase, digest: PlanDigest, adapterId: string, granted: bool, installer: Identity)
    | Applied(appliedPhase: Phase, plan: HostPlanResult, dockerGroup: bool, applier: Identity)
    | Verified(guard: Stage, report: Report)
    | Saved(saved: InstallState)
    | InputChanged(changed: Stage)
    | IllegalTransition
    | Failed
}
