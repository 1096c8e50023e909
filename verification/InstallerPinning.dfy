/**
 Kernel and host pinning: in every process, whatever is on disk, the stages after the
 tuning plan execute on the kernel that plan was made for, and the stages after host
 verification execute on a host verified by that process.
 */
module InstallerPinning {
  import opened Wrappers
  import opened InstallerModel
  import opened InstallerStages
  import opened InstallerRun
  import opened InstallerCheckpoint
  import opened InstallerHistory

  /** Kernel verification passed on this kernel. */
  predicate KernelSeen(log: seq<Event>, kernel: string) {
    exists j | 0 <= j < |log| ::
      log[j].Verified? && log[j].guard == KernelVerify
      && log[j].report.status == Pass && log[j].report.kernel == Some(kernel)
  }

  predicate HostSeen(log: seq<Event>) {
    exists j | 0 <= j < |log| ::
      log[j].Verified? && log[j].guard == HostVerify
      && (log[j].report.status == Pass || log[j].report.status == Unverified)
  }

  /** The tuning plan was recorded for this kernel, after a passing verification. */
  predicate PlannedOn(st: InstallState, kernel: string) {
    && HostPlan in st.completed
    && var values := st.completed[HostPlan].inputs.values;
    && values.TuningPlanValues?
    && values.kernelStatus == Some(Pass)
    && values.kernelName == Some(kernel)
  }

  /** What the log says before a dispatch that touches the tuned host. */
  ghost predicate Pinned(log: seq<Event>, k: nat)
    requires k < |log|
  {
    log[k].Dispatched? ==>
      && (Position(Full, log[k].stage) > Position(Full, HostPlan) ==>
            exists kernel :: KernelSeen(log[..k], kernel) && PlannedOn(log[k].state, kernel))
      && (Position(Full, log[k].stage) > Position(Full, HostVerify) ==> HostSeen(log[..k]))
  }

  /** What the loop knows when it reaches index `i`. */
  predicate Pins(i: nat, st: InstallState, log: seq<Event>) {
    && (i > 6 ==>
          && st.kernel.verification.status == Some(Pass)
          && st.kernel.verification.kernel.Some?
          && KernelSeen(log, st.kernel.verification.kernel.value))
    && (i > 7 ==> PlannedOn(st, st.kernel.verification.kernel.value))
    && (i > 10 ==> HostSeen(log))
  }

  lemma KernelSeenMore(log: seq<Event>, more: seq<Event>, kernel: string)
    requires KernelSeen(log, kernel) || KernelSeen(more, kernel)
    ensures KernelSeen(log + more, kernel)
  {
    if KernelSeen(log, kernel) {
      var j :| 0 <= j < |log| && log[j].Verified? && log[j].guard == KernelVerify
        && log[j].report.status == Pass && log[j].report.kernel == Some(kernel);
      assert (log + more)[j] == log[j];
    } else {
      var j :| 0 <= j < |more| && more[j].Verified? && more[j].guard == KernelVerify
        && more[j].report.status == Pass && more[j].report.kernel == Some(kernel);
      assert (log + more)[|log| + j] == more[j];
    }
  }

  lemma HostSeenMore(log: seq<Event>, more: seq<Event>)
    requires HostSeen(log) || HostSeen(more)
    ensures HostSeen(log + more)
  {
    if HostSeen(log) {
      var j :| 0 <= j < |log| && log[j].Verified? && log[j].guard == HostVerify
        && (log[j].report.status == Pass || log[j].report.status == Unverified);
      assert (log + more)[j] == log[j];
    } else {
      var j :| 0 <= j < |more| && more[j].Verified? && more[j].guard == HostVerify
        && (more[j].report.status == Pass || more[j].report.status == Unverified);
      assert (log + more)[|log| + j] == more[j];
    }
  }

  /** A guard that lets the loop go on has just verified the kernel or the host. */
  predicate Verifies(stage: Stage, st: InstallState, step: Step) {
    && |step.events| > 1
    && step.events[1].Verified? && step.events[1].guard == stage
    && var report := step.events[1].report;
    && report.kernel.Some?
    && (stage == KernelVerify ==> report.status == Pass && step.st.kernel.verification == VerificationOf(report))
    && (stage == HostVerify ==> (report.status == Pass || report.status == Unverified) && step.st.kernel == st.kernel)
  }

  lemma GuardVerifies(p: Process, st: InstallState, caches: Caches, stage: Stage)
    requires stage in Guards() && !GuardStep(p, st, caches, stage).halted
    ensures Verifies(stage, st, GuardStep(p, st, caches, stage))
  {
    hide MergeReports;
  }

  lemma FinishVerifies(
    p: Process, st: InstallState, caches: Caches, stage: Stage, next: Stage, inputs: StageInputs)
    requires stage in Guards() && Dispatch(p, st, caches, stage).output.Returned?
    requires var d := Dispatch(p, st, caches, stage);
             !FinishStage(
                p, st, d.caches, stage, next, inputs, d.output.value, [Dispatched(stage, st)] + d.events).halted
    ensures var d := Dispatch(p, st, caches, stage);
            Verifies(stage, st, FinishStage(
              p, st, d.caches, stage, next, inputs, d.output.value, [Dispatched(stage, st)] + d.events))
  {
    hide MergeReports;
  }

  lemma GuardsVerify(p: Process, i: nat, st: InstallState, caches: Caches)
    requires p.command.options.mode == Full && (i == 6 || i == 10)
    requires !StageStep(p, i, st, caches).halted
    ensures Verifies(FULL_STAGE_ORDER[i], st, StageStep(p, i, st, caches))
  {
    hide InputsOf, GuardStep, FinishStage, Dispatch, Verifies;
    var stage := FULL_STAGE_ORDER[i];
    if stage in st.completed {
      GuardVerifies(p, st, caches, stage);
    } else {
      var inputs := InputsOf(p.command, p.facts, stage, st).value;
      FinishVerifies(p, st, caches, stage, FULL_STAGE_ORDER[i + 1], inputs);
    }
  }

  lemma VerificationStands(p: Process, st: InstallState, caches: Caches, stage: Stage, output: Output)
    requires stage != KernelVerify
    ensures ApplyOutput(p, st, caches, stage, output).Some? ==>
              ApplyOutput(p, st, caches, stage, output).value.kernel.verification == st.kernel.verification
  {
  }

  lemma StepKeepsVerification(p: Process, i: nat, st: InstallState, caches: Caches)
    requires p.command.options.mode == Full && i < |FULL_STAGE_ORDER| && i != 6
    ensures StageStep(p, i, st, caches).st.kernel.verification == st.kernel.verification
  {
    hide ApplyOutput, StageStep;
    PositionOfOrder(Full, i);
    var applied, caches', output := StepApplies(p, i, st, caches);
    VerificationStands(p, st, caches', FULL_STAGE_ORDER[i], output);
  }

  lemma KernelSeenNow(events: seq<Event>, kernel: string)
    requires |events| > 1 && events[1].Verified? && events[1].guard == KernelVerify
    requires events[1].report.status == Pass && events[1].report.kernel == Some(kernel)
    ensures KernelSeen(events, kernel)
  {
  }

  lemma HostSeenNow(events: seq<Event>)
    requires |events| > 1 && events[1].Verified? && events[1].guard == HostVerify
    requires events[1].report.status == Pass || events[1].report.status == Unverified
    ensures HostSeen(events)
  {
  }

  /** Past HOST_PLAN the plan was recorded for the kernel of the last verification, if that passed. */
  lemma StepPlans(p: Process, st: InstallState, caches: Caches)
    requires p.command.options.mode == Full && !StageStep(p, 7, st, caches).halted
    requires st.kernel.verification.status == Some(Pass) && st.kernel.verification.kernel.Some?
    ensures PlannedOn(StageStep(p, 7, st, caches).st, st.kernel.verification.kernel.value)
  {
    hide StageStep;
    StepShape(p, 7, st, caches);
    PositionOfOrder(Full, 7);
    if HostPlan in st.completed {
      RecheckedInputs(p, 7, st, caches);
    }
  }

  /** The loop only goes on past a completed stage whose inputs recompute. */
  lemma RecheckedInputs(p: Process, i: nat, st: InstallState, caches: Caches)
    requires i < |StageOrder(p.command.options.mode)| && StageOrder(p.command.options.mode)[i] in st.completed
    requires !StageStep(p, i, st, caches).halted
    ensures var stage := StageOrder(p.command.options.mode)[i];
            Some(st.completed[stage].inputs) == InputsOf(p.command, p.facts, stage, st)
  {
    hide InputsOf, GuardStep;
  }

  lemma StepKeepsPlan(p: Process, i: nat, st: InstallState, caches: Caches, kernel: string)
    requires p.command.options.mode == Full && 7 < i < |FULL_STAGE_ORDER| && PlannedOn(st, kernel)
    ensures PlannedOn(StageStep(p, i, st, caches).st, kernel)
  {
    hide StageStep;
    StepShape(p, i, st, caches);
    PositionOfOrder(Full, i);
  }

  lemma StepPins(p: Process, i: nat, st: InstallState, caches: Caches, log: seq<Event>)
    requires p.command.options.mode == Full && i < |FULL_STAGE_ORDER|
    requires Pins(i, st, log)
    requires !StageStep(p, i, st, caches).halted
    ensures var step := StageStep(p, i, st, caches);
            Pins(i + 1, step.st, log + step.events)
  {
    hide StageStep, ValuesOf, KernelSeen, HostSeen, PlannedOn;
    var step := StageStep(p, i, st, caches);
    PositionOfOrder(Full, i);
    if i == 7 {
      StepPlans(p, st, caches);
    } else if i > 7 {
      StepKeepsPlan(p, i, st, caches, st.kernel.verification.kernel.value);
    }
    if i == 6 {
      GuardsVerify(p, i, st, caches);
      KernelSeenNow(step.events, step.st.kernel.verification.kernel.value);
      KernelSeenMore(log, step.events, step.st.kernel.verification.kernel.value);
    } else {
      StepKeepsVerification(p, i, st, caches);
      if i > 6 {
        KernelSeenMore(log, step.events, step.st.kernel.verification.kernel.value);
      }
    }
    if i == 10 {
      GuardsVerify(p, i, st, caches);
      HostSeenNow(step.events);
    }
    if i >= 10 {
      HostSeenMore(log, step.events);
    }
  }

  lemma StepIsPinned(p: Process, i: nat, st: InstallState, caches: Caches, log: seq<Event>)
    requires p.command.options.mode == Full && i < |FULL_STAGE_ORDER|
    requires Pins(i, st, log)
    ensures var all := log + StageStep(p, i, st, caches).events;
            forall k | |log| <= k < |all| :: Pinned(all, k)
  {
    hide StageStep, KernelSeen, HostSeen, PlannedOn;
    var step := StageStep(p, i, st, caches);
    var all := log + step.events;
    StepShape(p, i, st, caches);
    PositionOfOrder(Full, i);
    assert all[..|log|] == log;
    forall k | |log| <= k < |all| ensures Pinned(all, k) {
      assert all[k] == step.events[k - |log|];
    }
  }

  lemma PinnedMore(log: seq<Event>, more: seq<Event>, k: nat)
    requires k < |log| && Pinned(log, k)
    ensures Pinned(log + more, k)
  {
    hide KernelSeen, HostSeen, PlannedOn;
    assert (log + more)[..k] == log[..k];
  }

  lemma {:induction false} LoopIsPinned(p: Process, i: nat, st: InstallState, caches: Caches, log: seq<Event>)
    requires p.command.options.mode == Full && i <= |FULL_STAGE_ORDER|
    requires Pins(i, st, log)
    ensures var all := log + RunFrom(p, i, st, caches);
            forall k | |log| <= k < |all| :: Pinned(all, k)
    decreases |FULL_STAGE_ORDER| - i
  {
    hide StageStep, Pinned, Pins;
    var all := log + RunFrom(p, i, st, caches);
    if i < |FULL_STAGE_ORDER| {
      var step := StageStep(p, i, st, caches);
      var here := log + step.events;
      var rest := if step.halted then [] else RunFrom(p, i + 1, step.st, step.caches);
      Regroup(log, step.events, rest);
      assert all == here + rest;
      StepIsPinned(p, i, st, caches, log);
      if !step.halted {
        StepPins(p, i, st, caches, log);
        LoopIsPinned(p, i + 1, step.st, step.caches, here);
      }
      forall k | |log| <= k < |all| ensures Pinned(all, k) {
        if k < |here| {
          PinnedMore(here, rest, k);
        } else {
          assert Pinned(here + RunFrom(p, i + 1, step.st, step.caches), k);
        }
      }
    }
  }

  /**
   In a full installation no stage after HOST_PLAN is dispatched unless the same process saw
   kernel verification pass on the very kernel HOST_PLAN recorded, and none after HOST_VERIFY
   unless it saw the host pass or stay unverified. This holds for every state file.
   */
  lemma EveryProcessIsPinned(p: Process, stored: Stored)
    requires p.command.options.mode == Full
    ensures forall k | 0 <= k < |Run(p, stored)| :: Pinned(Run(p, stored), k)
  {
    hide Begin, RunFrom, Standing, Pins, KernelSeen, HostSeen, PlannedOn;
    var log := Run(p, stored);
    BeginShape(p, stored);
    var start := Begin(p, stored);
    if start.st.Some? {
      NothingPinned(start.st.value, start.events);
      LoopIsPinned(p, 0, start.st.value, NO_CACHES, start.events);
    }
    forall k | 0 <= k < |log| ensures Pinned(log, k) {
      if k < |start.events| {
        assert log[k] == start.events[k];
        assert !log[k].Dispatched?;
      } else {
        assert Pinned(start.events + RunFrom(p, 0, start.st.value, NO_CACHES), k);
      }
    }
  }

  lemma NothingPinned(st: InstallState, log: seq<Event>)
    ensures Pins(0, st, log)
  {
  }
}
