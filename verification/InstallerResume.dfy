/**
 Resuming: repeating the same command on the same files and the same machine never finds
 that a completed stage's inputs changed.
 */
module InstallerResume {
  import opened Wrappers
  import opened InstallerModel
  import opened InstallerStages
  import opened InstallerRun
  import opened InstallerCheckpoint
  import opened InstallerHistory

  /** The same command on the same files and the same machine. */
  ghost predicate Repeats(p: Process, command: Command, facts: Facts) {
    p.command == command && p.facts == facts
  }

  /** The kernel this process passes verification on, if it passes at all. */
  function PassedKernel(p: Process): Option<string> {
    var reply := p.oracle.report(KernelVerify);
    if reply.Returned? && reply.value.status == Pass then reply.value.kernel else None
  }

  /** The kernel HOST_PLAN was recorded for. */
  function PlannedKernel(st: InstallState): Option<string> {
    if HostPlan in st.completed && st.completed[HostPlan].inputs.values.TuningPlanValues?
    then st.completed[HostPlan].inputs.values.kernelName
    else None
  }

  /** A repetition that passes on this kernel, if on any. */
  ghost predicate SameWorld(p: Process, command: Command, facts: Facts, kernel: string) {
    Repeats(p, command, facts) && (PassedKernel(p).Some? ==> PassedKernel(p) == Some(kernel))
  }

  /** The record HOST_PLAN is hashed from once the kernel has passed. */
  function TuningInputs(command: Command, facts: Facts, kernel: string, st: InstallState): StageInputs {
    StageInputs(
      HostPlan, command.options.mode, TuningPlanValues(st.targetUser, Some(Pass), Some(kernel)),
      facts.observed(HostPlan))
  }

  /** A completed stage recomputes to what was recorded for it. */
  predicate Recomputes(command: Command, facts: Facts, kernel: string, stage: Stage, st: InstallState)
    requires stage in st.completed
  {
    if stage == HostPlan then st.completed[stage].inputs == TuningInputs(command, facts, kernel, st)
    else InputsOf(command, facts, stage, st) == Some(st.completed[stage].inputs)
  }

  predicate Stable(command: Command, facts: Facts, kernel: string, st: InstallState) {
    && (forall stage | stage in st.completed :: Recomputes(command, facts, kernel, stage, st))
    && (KernelPlan in st.completed ==> st.hostAdapterId.Some? && st.targetUser.Some?)
  }

  /** Once the loop passed KERNEL_VERIFY it knows the kernel. */
  predicate KernelKnown(mode: Mode, i: nat, kernel: string, st: InstallState) {
    mode == Full && i > 6 ==>
      st.kernel.verification.status == Some(Pass) && st.kernel.verification.kernel == Some(kernel)
  }

  /** The values hashed for a stage do not depend on the checkpoint itself. */
  lemma CheckpointIsNoInput(command: Command, facts: Facts, stage: Stage, applied: InstallState, st': InstallState)
    requires Checkpointed(applied, st')
    ensures ValuesOf(command, facts, stage, st') == ValuesOf(command, facts, stage, applied)
  {
  }

  /** The fields a stage may write. */
  predicate Writes(stage: Stage, st: InstallState, applied: InstallState) {
    match stage
    case Bootstrap => applied == st.(installer := applied.installer)
    case KernelPlan =>
      applied == st.(
        kernel := st.kernel.(planDigest := applied.kernel.planDigest), hostAdapterId := applied.hostAdapterId)
    case KernelApply =>
      applied == st.(
        kernel := applied.kernel.(planDigest := st.kernel.planDigest, verification := st.kernel.verification),
        displayManagerWasLoaded := applied.displayManagerWasLoaded)
    case KernelVerify => applied == st.(kernel := st.kernel.(verification := applied.kernel.verification))
    case HostPlan =>
      && applied == st.(hostPlanDigest := applied.hostPlanDigest, hostAdapterId := applied.hostAdapterId)
      && (st.hostAdapterId.Some? ==> applied.hostAdapterId == st.hostAdapterId)
    case HostConfirm => applied == st.(dockerGroupAccepted := applied.dockerGroupAccepted)
    case HostVerify => applied == st.(hostVerification := applied.hostVerification)
    case ReleaseResolve => WritesImages(st, applied)
    case ImagePullOrBuild => WritesImages(st, applied)
    case _ => applied == st
  }

  predicate WritesImages(st: InstallState, applied: InstallState) {
    applied == st.(
      releaseId := applied.releaseId, sourceRevision := applied.sourceRevision,
      base := applied.base, torch := applied.torch)
  }

  lemma ApplyWrites(p: Process, st: InstallState, caches: Caches, stage: Stage, output: Output)
    ensures var applied := ApplyOutput(p, st, caches, stage, output);
            applied.Some? ==> Writes(stage, st, applied.value)
  {
    hide ResolvedKernelPlan;
  }

  /** No stage changes what it or an earlier stage was hashed from. */
  lemma ApplyFrame(
    command: Command, facts: Facts, p: Process, i: nat, st: InstallState, caches: Caches, output: Output,
    earlier: Stage)
    requires command.options.mode == p.command.options.mode
    requires i < |StageOrder(command.options.mode)|
    requires Position(command.options.mode, earlier) <= i
    requires p.command.options.mode == Full && i >= 7 ==> st.hostAdapterId.Some?
    ensures var applied := ApplyOutput(p, st, caches, StageOrder(command.options.mode)[i], output);
            applied.Some? ==>
              ValuesOf(command, facts, earlier, applied.value) == ValuesOf(command, facts, earlier, st)
  {
    hide ApplyOutput;
    var stage := StageOrder(command.options.mode)[i];
    PositionOfOrder(command.options.mode, i);
    ApplyWrites(p, st, caches, stage, output);
  }

  /** A guard changes nothing any stage but HOST_PLAN is hashed from. */
  lemma GuardFrame(
    command: Command, facts: Facts, p: Process, st: InstallState, caches: Caches, output: Output,
    guard: Stage, stage: Stage)
    requires guard in Guards() && stage != HostPlan
    ensures var applied := ApplyOutput(p, st, caches, guard, output);
            applied.Some? ==>
              ValuesOf(command, facts, stage, applied.value) == ValuesOf(command, facts, stage, st)
  {
    hide ApplyOutput;
    ApplyWrites(p, st, caches, guard, output);
  }

  lemma UserStands(p: Process, i: nat, st: InstallState, caches: Caches)
    requires i < |StageOrder(p.command.options.mode)|
    ensures StageStep(p, i, st, caches).st.targetUser == st.targetUser
  {
    hide StageStep;
    StepShape(p, i, st, caches);
  }

  /** An iteration leaves the values of the stages completed before it alone. */
  lemma StepFrame(p: Process, i: nat, st: InstallState, caches: Caches, stage: Stage)
    requires i < |StageOrder(p.command.options.mode)| && AtIndex(p.command.options.mode, i, st)
    requires KernelPlan in st.completed ==> st.hostAdapterId.Some?
    requires stage != HostPlan
    requires stage in st.completed || stage == StageOrder(p.command.options.mode)[i]
    ensures var step := StageStep(p, i, st, caches);
            ValuesOf(p.command, p.facts, stage, step.st) == ValuesOf(p.command, p.facts, stage, st)
  {
    hide StageStep, ApplyOutput, ValuesOf, InputsOf;
    var mode := p.command.options.mode;
    var here := StageOrder(mode)[i];
    var step := StageStep(p, i, st, caches);
    StepShape(p, i, st, caches);
    StepAtIndex(p, i, st, caches);
    PositionOfOrder(mode, i);
    var applied, caches', output := StepApplies(p, i, st, caches);
    CheckpointIsNoInput(p.command, p.facts, stage, applied, step.st);
    if here in st.completed {
      if here in Guards() {
        GuardFrame(p.command, p.facts, p, st, caches', output, here, stage);
      }
    } else {
      InBefore(mode, i, stage);
      InBefore(mode, i, KernelPlan);
      ApplyFrame(p.command, p.facts, p, i, st, caches', output, stage);
    }
  }

  lemma AdapterStands(p: Process, i: nat, st: InstallState, caches: Caches)
    requires i < |StageOrder(p.command.options.mode)|
    requires KernelPlan in st.completed ==> st.hostAdapterId.Some? && st.targetUser.Some?
    ensures var st' := StageStep(p, i, st, caches).st;
            KernelPlan in st'.completed ==> st'.hostAdapterId.Some? && st'.targetUser.Some?
  {
    hide StageStep, ApplyOutput, InputsOf;
    var mode := p.command.options.mode;
    var step := StageStep(p, i, st, caches);
    StepShape(p, i, st, caches);
    PositionOfOrder(mode, i);
    if StageOrder(mode)[i] == KernelPlan && Completes(p, i, st, step.st) {
      PlanNeedsUser(p, i, st, caches);
    }
    var applied, caches', output := StepApplies(p, i, st, caches);
    AdapterIsNeverLost(p, st, caches', StageOrder(mode)[i], output);
  }

  lemma PlanNeedsUser(p: Process, i: nat, st: InstallState, caches: Caches)
    requires i < |StageOrder(p.command.options.mode)| && StageOrder(p.command.options.mode)[i] == KernelPlan
    requires Completes(p, i, st, StageStep(p, i, st, caches).st)
    ensures st.targetUser.Some?
  {
    hide InputsOf, FinishStage, Completes;
    CompletesAnew(p, i, st, StageStep(p, i, st, caches).st);
  }

  lemma CompletesAnew(p: Process, i: nat, st: InstallState, st': InstallState)
    requires i < |StageOrder(p.command.options.mode)| && Completes(p, i, st, st')
    ensures StageOrder(p.command.options.mode)[i] !in st.completed && st' != st
  {
    hide InputsOf;
    assert StageOrder(p.command.options.mode)[i] in st'.completed;
  }

  lemma AdapterIsNeverLost(p: Process, st: InstallState, caches: Caches, stage: Stage, output: Output)
    ensures var applied := ApplyOutput(p, st, caches, stage, output);
            applied.Some? ==>
              && (st.hostAdapterId.Some? ==> applied.value.hostAdapterId.Some?)
              && (stage == KernelPlan ==> applied.value.hostAdapterId.Some?)
  {
  }

  /** A loop that passes KERNEL_VERIFY has read the one kernel. */
  lemma StepKnowsKernel(
    p: Process, i: nat, st: InstallState, caches: Caches, command: Command, facts: Facts, kernel: string)
    requires SameWorld(p, command, facts, kernel)
    requires i < |StageOrder(command.options.mode)|
    requires KernelKnown(command.options.mode, i, kernel, st)
    requires !StageStep(p, i, st, caches).halted
    ensures KernelKnown(command.options.mode, i + 1, kernel, StageStep(p, i, st, caches).st)
  {
    hide StageStep, ApplyOutput;
    if command.options.mode == Full {
      PositionOfOrder(Full, i);
      if i == 6 {
        VerifyReads(p, st, caches);
      } else {
        var applied, caches', output := StepApplies(p, i, st, caches);
        VerificationOnlyThere(p, st, caches', FULL_STAGE_ORDER[i], output);
      }
    }
  }

  lemma VerifyReads(p: Process, st: InstallState, caches: Caches)
    requires p.command.options.mode == Full && !StageStep(p, 6, st, caches).halted
    ensures var reply := p.oracle.report(KernelVerify);
            && reply.Returned? && reply.value.status == Pass && reply.value.kernel.Some?
            && StageStep(p, 6, st, caches).st.kernel.verification == VerificationOf(reply.value)
  {
    hide InputsOf, MergeReports;
  }

  lemma VerificationOnlyThere(p: Process, st: InstallState, caches: Caches, stage: Stage, output: Output)
    ensures var applied := ApplyOutput(p, st, caches, stage, output);
            applied.Some? && stage != KernelVerify ==>
              applied.value.kernel.verification == st.kernel.verification
  {
  }

  /** The stage completed by an iteration recomputes too, and HOST_PLAN records the kernel. */
  lemma StepStable(
    p: Process, i: nat, st: InstallState, caches: Caches, command: Command, facts: Facts, kernel: string)
    requires Repeats(p, command, facts)
    requires i < |StageOrder(command.options.mode)| && AtIndex(command.options.mode, i, st)
    requires Stable(command, facts, kernel, st)
    requires HostPlan in st.completed || KernelKnown(command.options.mode, i, kernel, st)
    ensures Stable(command, facts, kernel, StageStep(p, i, st, caches).st)
  {
    hide StageStep, ValuesOf;
    var step := StageStep(p, i, st, caches);
    StepShape(p, i, st, caches);
    UserStands(p, i, st, caches);
    AdapterStands(p, i, st, caches);
    PositionOfOrder(command.options.mode, i);
    forall stage | stage in step.st.completed
      ensures Recomputes(command, facts, kernel, stage, step.st)
    {
      assert stage in st.completed ==> Recomputes(command, facts, kernel, stage, st);
      if stage != HostPlan {
        StepFrame(p, i, st, caches, stage);
      } else if stage !in st.completed {
        HostPlanRecords(p, i, st, kernel);
      }
    }
  }

  lemma HostPlanRecords(p: Process, i: nat, st: InstallState, kernel: string)
    requires i < |StageOrder(p.command.options.mode)| && StageOrder(p.command.options.mode)[i] == HostPlan
    requires KernelKnown(p.command.options.mode, i, kernel, st)
    ensures InputsOf(p.command, p.facts, HostPlan, st) == Some(TuningInputs(p.command, p.facts, kernel, st))
  {
    PositionOfOrder(p.command.options.mode, i);
  }

  lemma StepFindsNoChange(
    p: Process, i: nat, st: InstallState, caches: Caches, command: Command, facts: Facts, kernel: string)
    requires Repeats(p, command, facts)
    requires i < |StageOrder(command.options.mode)|
    requires Stable(command, facts, kernel, st) && KernelKnown(command.options.mode, i, kernel, st)
    ensures var events := StageStep(p, i, st, caches).events;
            forall k | 0 <= k < |events| :: !events[k].InputChanged?
  {
    hide GuardStep, FreshStep, InputsOf, Guards;
    var stage := StageOrder(command.options.mode)[i];
    if stage in st.completed {
      assert Recomputes(command, facts, kernel, stage, st);
      if stage == HostPlan {
        HostPlanRecords(p, i, st, kernel);
      }
      GuardFindsNoChange(p, st, caches, stage);
    } else {
      FreshFindsNoChange(p, i, st, caches);
    }
  }

  lemma GuardFindsNoChange(p: Process, st: InstallState, caches: Caches, stage: Stage)
    ensures var events := GuardStep(p, st, caches, stage).events;
            forall k | 0 <= k < |events| :: !events[k].InputChanged?
  {
    hide Dispatch, ApplyOutput, ResultOf, MergeReports;
    DispatchEvents(p, st, caches, stage);
  }

  lemma FreshFindsNoChange(p: Process, i: nat, st: InstallState, caches: Caches)
    requires i < |StageOrder(p.command.options.mode)|
    ensures var order := StageOrder(p.command.options.mode);
            var events := FreshStep(p, st, caches, order[i], if i + 1 < |order| then order[i + 1] else order[i]).events;
            forall k | 0 <= k < |events| :: !events[k].InputChanged?
  {
    hide Dispatch, ApplyOutput, ResultOf, MergeReports, InputsOf;
    var stage := StageOrder(p.command.options.mode)[i];
    var (caches', _) := DiskCheck(p, st, caches, stage);
    DispatchEvents(p, st, caches', stage);
  }

  /** Saves stay stable and no input changes. */
  predicate StableLog(command: Command, facts: Facts, kernel: string, log: seq<Event>) {
    && (forall k | 0 <= k < |log| :: !log[k].InputChanged?)
    && (forall k | 0 <= k < |log| && log[k].Saved? :: Stable(command, facts, kernel, log[k].saved))
  }

  lemma {:induction false} LoopIsStable(
    p: Process, i: nat, st: InstallState, caches: Caches, command: Command, facts: Facts, kernel: string)
    requires SameWorld(p, command, facts, kernel)
    requires i <= |StageOrder(command.options.mode)| && AtIndex(command.options.mode, i, st)
    requires Stable(command, facts, kernel, st) && KernelKnown(command.options.mode, i, kernel, st)
    ensures StableLog(command, facts, kernel, RunFrom(p, i, st, caches))
    decreases |StageOrder(command.options.mode)| - i
  {
    hide StageStep, Stable, AtIndex, KernelKnown;
    if i < |StageOrder(command.options.mode)| {
      var step := StageStep(p, i, st, caches);
      StepShape(p, i, st, caches);
      StepAtIndex(p, i, st, caches);
      StepStable(p, i, st, caches, command, facts, kernel);
      StepFindsNoChange(p, i, st, caches, command, facts, kernel);
      assert StableLog(command, facts, kernel, step.events);
      if !step.halted {
        StepKnowsKernel(p, i, st, caches, command, facts, kernel);
        LoopIsStable(p, i + 1, step.st, step.caches, command, facts, kernel);
      }
    }
  }

  predicate StoreStable(command: Command, facts: Facts, kernel: string, stored: Stored) {
    Standing(stored).Some? ==> Stable(command, facts, kernel, Standing(stored).value)
  }

  lemma AdoptionIsStable(p: Process, command: Command, facts: Facts, kernel: string, st: InstallState)
    requires Repeats(p, command, facts) && Stable(command, facts, kernel, st)
    ensures Stable(command, facts, kernel, AdoptUpdate(p, st))
  {
    hide CanAdoptUpdate;
    var st' := AdoptUpdate(p, st);
    forall stage | stage in st'.completed ensures Recomputes(command, facts, kernel, stage, st') {
      assert stage in st.completed && Recomputes(command, facts, kernel, stage, st);
    }
  }

  lemma RunIsStable(p: Process, stored: Stored, command: Command, facts: Facts, kernel: string)
    requires SameWorld(p, command, facts, kernel) && StoreStable(command, facts, kernel, stored)
    ensures StableLog(command, facts, kernel, Run(p, stored))
  {
    hide Begin, RunFrom, Standing, ValidTransition, Stable, AdoptUpdate;
    BeginShape(p, stored);
    var start := Begin(p, stored);
    if start.st.Some? {
      if Standing(stored).Some? {
        AdoptionIsStable(p, command, facts, kernel, Standing(stored).value);
      } else {
        NothingToRecompute(p, command, facts, kernel);
      }
      ValidAtStart(command.options.mode, start.st.value);
      LoopIsStable(p, 0, start.st.value, NO_CACHES, command, facts, kernel);
    }
  }

  lemma NothingToRecompute(p: Process, command: Command, facts: Facts, kernel: string)
    ensures Stable(command, facts, kernel, NewState(p))
  {
  }
}
