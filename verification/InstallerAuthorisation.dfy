/**
 Authorisation: over any number of processes, crashes and installer versions, the host is
 changed only by a plan that was accepted since the installation last began again.
 */
module InstallerAuthorisation {
  import opened Wrappers
  import opened InstallerModel
  import opened InstallerStages
  import opened InstallerRun
  import opened InstallerCheckpoint
  import opened InstallerHistory

  predicate NoRestart(log: seq<Event>, j: nat) {
    forall m | j < m < |log| :: !log[m].Restarted?
  }

  /** A plan with this digest and adapter was accepted, and the installation did not begin again since. */
  predicate AcceptedSince(
    log: seq<Event>, phase: Phase, digest: Option<PlanDigest>, adapterId: Option<string>,
    granted: bool, who: Identity)
  {
    exists j | 0 <= j < |log| ::
      && log[j].Accepted? && log[j].phase == phase
      && Some(log[j].digest) == digest && Some(log[j].adapterId) == adapterId
      && log[j].granted == granted && log[j].installer == who
      && NoRestart(log, j)
  }

  /** The installer whose identity the bootstrap checkpoint records. */
  function RecordedInstaller(st: InstallState): Option<Identity> {
    if Bootstrap in st.completed && st.completed[Bootstrap].inputs.values.BootstrapValues?
    then Some(st.completed[Bootstrap].inputs.values.installer)
    else None
  }

  predicate OfPhase(digest: Option<PlanDigest>, phase: Phase) {
    digest.Some? && digest.value.PlanDigest? && digest.value.plan.phase == phase
  }

  ghost predicate KernelAccepted(st: InstallState, log: seq<Event>) {
    exists who ::
      && AcceptedSince(log, KernelPhase, st.kernel.planDigest, st.hostAdapterId, false, who)
      && (KernelApply !in st.completed ==> RecordedInstaller(st) == Some(who))
  }

  ghost predicate HostAccepted(st: InstallState, log: seq<Event>) {
    exists who ::
      AcceptedSince(log, TuningPhase, st.hostPlanDigest, st.hostAdapterId, st.dockerGroupAccepted, who)
  }

  /** Every confirmation the state holds was really given. */
  ghost predicate Authorised(st: InstallState, log: seq<Event>) {
    && (KernelConfirm in st.completed ==> KernelAccepted(st, log))
    && (HostPlan in st.completed ==> OfPhase(st.hostPlanDigest, TuningPhase))
    && (HostConfirm in st.completed ==> HostAccepted(st, log))
  }

  /**
   An applied plan is of its own phase, was accepted with the same digest and adapter, carries
   the Docker group exactly as granted and never for the kernel, and the kernel plan is applied
   by the installer that had it accepted.
   */
  ghost predicate ApplyAllowed(log: seq<Event>, k: nat)
    requires k < |log|
  {
    log[k].Applied? ==>
      var e := log[k];
      && e.plan.plan.phase == e.appliedPhase
      && (e.appliedPhase == KernelPhase ==> !e.dockerGroup)
      && exists who ::
           && AcceptedSince(
                log[..k], e.appliedPhase, Some(e.plan.Digest()), Some(e.plan.adapterId), e.dockerGroup, who)
           && (e.appliedPhase == KernelPhase ==> who == e.applier)
  }

  ghost predicate SaveAllowed(log: seq<Event>, k: nat)
    requires k < |log|
  {
    log[k].Saved? && log[k].saved.mode == Full ==> Authorised(log[k].saved, log[..k + 1])
  }

  lemma AcceptedStill(
    log: seq<Event>, more: seq<Event>, phase: Phase, digest: Option<PlanDigest>,
    adapterId: Option<string>, granted: bool, who: Identity)
    requires AcceptedSince(log, phase, digest, adapterId, granted, who)
    requires forall k | 0 <= k < |more| :: !more[k].Restarted?
    ensures AcceptedSince(log + more, phase, digest, adapterId, granted, who)
  {
    var j :| 0 <= j < |log| && log[j].Accepted? && log[j].phase == phase
      && Some(log[j].digest) == digest && Some(log[j].adapterId) == adapterId
      && log[j].granted == granted && log[j].installer == who && NoRestart(log, j);
    var all := log + more;
    assert all[j] == log[j];
    forall m | j < m < |all| ensures !all[m].Restarted? {
      assert m < |log| ==> all[m] == log[m];
      assert m >= |log| ==> all[m] == more[m - |log|];
    }
  }

  lemma StillAuthorised(st: InstallState, log: seq<Event>, more: seq<Event>)
    requires Authorised(st, log)
    requires forall k | 0 <= k < |more| :: !more[k].Restarted?
    ensures Authorised(st, log + more)
  {
    hide AcceptedSince;
    if KernelConfirm in st.completed {
      var who :| AcceptedSince(log, KernelPhase, st.kernel.planDigest, st.hostAdapterId, false, who)
        && (KernelApply !in st.completed ==> RecordedInstaller(st) == Some(who));
      AcceptedStill(log, more, KernelPhase, st.kernel.planDigest, st.hostAdapterId, false, who);
    }
    if HostConfirm in st.completed {
      var who :| AcceptedSince(
        log, TuningPhase, st.hostPlanDigest, st.hostAdapterId, st.dockerGroupAccepted, who);
      AcceptedStill(
        log, more, TuningPhase, st.hostPlanDigest, st.hostAdapterId, st.dockerGroupAccepted, who);
    }
  }

  /** Which authorisation fields a stage may write. */
  predicate WritesOnly(i: nat, st: InstallState, st': InstallState) {
    && (i != 2 ==> st'.kernel.planDigest == st.kernel.planDigest)
    && (i != 2 && (i != 7 || st.hostAdapterId.Some?) ==> st'.hostAdapterId == st.hostAdapterId)
    && (i != 7 ==> st'.hostPlanDigest == st.hostPlanDigest)
    && (i == 7 ==> st'.hostPlanDigest == st.hostPlanDigest || OfPhase(st'.hostPlanDigest, TuningPhase))
    && (i != 8 ==> st'.dockerGroupAccepted == st.dockerGroupAccepted)
  }

  lemma ApplyWritesOnly(p: Process, i: nat, st: InstallState, caches: Caches, output: Output)
    requires i < |FULL_STAGE_ORDER|
    ensures ApplyOutput(p, st, caches, FULL_STAGE_ORDER[i], output).Some? ==>
              var st' := ApplyOutput(p, st, caches, FULL_STAGE_ORDER[i], output).value;
              WritesOnly(i, st, st')
              && (i == 7 ==> OfPhase(st'.hostPlanDigest, TuningPhase))
  {
    PositionOfOrder(Full, i);
  }

  lemma StepWritesOnly(p: Process, i: nat, st: InstallState, caches: Caches)
    requires p.command.options.mode == Full && i < |FULL_STAGE_ORDER|
    ensures var step := StageStep(p, i, st, caches);
            && WritesOnly(i, st, step.st)
            && (i == 7 && Completes(p, i, st, step.st) ==> OfPhase(step.st.hostPlanDigest, TuningPhase))
  {
    hide ApplyOutput, StageStep, OfPhase;
    var applied, caches', output := StepApplies(p, i, st, caches);
    ApplyWritesOnly(p, i, st, caches', output);
  }

  /** The plan handed to the host, when the stage at index `i` applies one. */
  predicate AppliesPlan(p: Process, i: nat, st: InstallState, e: Event) {
    && e.Applied?
    && Some(e.plan.Digest()) == (if i == 4 then st.kernel.planDigest else st.hostPlanDigest)
    && Some(e.plan.adapterId) == st.hostAdapterId
    && e.appliedPhase == (if i == 4 then KernelPhase else TuningPhase)
    && (i == 4 ==> e.plan.plan.phase == KernelPhase)
    && e.dockerGroup == (i != 4 && st.dockerGroupAccepted)
    && e.applier == p.command.installer
  }

  predicate AcceptsPlan(p: Process, i: nat, st: InstallState, e: Event) {
    && e.Accepted?
    && Some(e.digest) == (if i == 3 then st.kernel.planDigest else st.hostPlanDigest)
    && Some(e.adapterId) == st.hostAdapterId
    && e.phase == (if i == 3 then KernelPhase else TuningPhase)
    && (i == 3 ==> !e.granted)
    && e.installer == p.command.installer
  }

  lemma DispatchAuthorises(p: Process, i: nat, st: InstallState, caches: Caches)
    requires i < |FULL_STAGE_ORDER|
    ensures var d := Dispatch(p, st, caches, FULL_STAGE_ORDER[i]);
            && |d.events| <= 1
            && (d.events != [] && d.events[0].Applied? ==> (i == 4 || i == 9) && AppliesPlan(p, i, st, d.events[0]))
            && (i == 3 || i == 8 ==>
                  d.output.Returned? ==>
                    && d.output.value.ConfirmOutput?
                    && (d.output.value.accepted ==>
                          d.events != [] && AcceptsPlan(p, i, st, d.events[0])
                          && d.events[0].granted == d.output.value.dockerGroup))
  {
    PositionOfOrder(Full, i);
  }

  /** What one iteration applies. */
  predicate AppliesOnly(p: Process, i: nat, st: InstallState, events: seq<Event>)
    requires i < |FULL_STAGE_ORDER|
  {
    forall k | 0 <= k < |events| && events[k].Applied? ::
      k == 1 && (i == 4 || i == 9) && FULL_STAGE_ORDER[i] !in st.completed && AppliesPlan(p, i, st, events[k])
  }

  /** What it must have asked before completing a confirmation. */
  predicate AsksFirst(p: Process, i: nat, st: InstallState, step: Step)
    requires p.command.options.mode == Full && i < |FULL_STAGE_ORDER|
  {
    (i == 3 || i == 8) && Completes(p, i, st, step.st) ==>
      |step.events| > 1 && AcceptsPlan(p, i, st, step.events[1])
      && (i == 8 ==> step.events[1].granted == step.st.dockerGroupAccepted)
  }

  lemma StepAuthorises(p: Process, i: nat, st: InstallState, caches: Caches)
    requires p.command.options.mode == Full && i < |FULL_STAGE_ORDER|
    ensures var step := StageStep(p, i, st, caches);
            AppliesOnly(p, i, st, step.events) && AsksFirst(p, i, st, step)
  {
    hide CompletedStep, FreshStep, AppliesOnly, AsksFirst;
    if FULL_STAGE_ORDER[i] in st.completed {
      CompletedAuthorises(p, i, st, caches);
    } else {
      FreshAuthorises(p, i, st, caches);
    }
  }

  /** A completed stage applies nothing and completes nothing. */
  lemma CompletedAuthorises(p: Process, i: nat, st: InstallState, caches: Caches)
    requires p.command.options.mode == Full && i < |FULL_STAGE_ORDER| && FULL_STAGE_ORDER[i] in st.completed
    ensures var step := CompletedStep(p, st, caches, FULL_STAGE_ORDER[i]);
            AppliesOnly(p, i, st, step.events) && AsksFirst(p, i, st, step)
  {
    hide InputsOf, GuardStep, AppliesPlan, AcceptsPlan;
    if FULL_STAGE_ORDER[i] in Guards() {
      GuardAppliesNothing(p, i, st, caches);
    }
  }

  lemma FreshAuthorises(p: Process, i: nat, st: InstallState, caches: Caches)
    requires p.command.options.mode == Full && i < |FULL_STAGE_ORDER| && FULL_STAGE_ORDER[i] !in st.completed
    ensures var order := FULL_STAGE_ORDER;
            var step := FreshStep(p, st, caches, order[i], if i + 1 < |order| then order[i + 1] else order[i]);
            AppliesOnly(p, i, st, step.events) && AsksFirst(p, i, st, step)
  {
    hide Dispatch, InputsOf, AppliesOnly, AsksFirst, FinishStage, DiskCheck;
    var stage := FULL_STAGE_ORDER[i];
    var (caches', enough) := DiskCheck(p, st, caches, stage);
    var d := Dispatch(p, st, caches', stage);
    var inputs := InputsOf(p.command, p.facts, stage, st);
    DispatchAuthorises(p, i, st, caches');
    if st.currentStage == stage && inputs.Some? && enough && d.output.Returned? {
      FinishAuthorises(p, i, st, caches', inputs.value);
    } else {
      UnfinishedAuthorises(p, i, st, caches', [Failed]);
      UnfinishedAuthorises(p, i, st, caches', [IllegalTransition]);
    }
  }

  /** A stage that does not come to its end completes nothing, and has applied what it dispatched. */
  lemma UnfinishedAuthorises(p: Process, i: nat, st: InstallState, caches: Caches, events: seq<Event>)
    requires p.command.options.mode == Full && i < |FULL_STAGE_ORDER| && FULL_STAGE_ORDER[i] !in st.completed
    requires forall k | 0 <= k < |events| :: !events[k].Applied?
    ensures var d := Dispatch(p, st, caches, FULL_STAGE_ORDER[i]);
            AppliesOnly(p, i, st, [Dispatched(FULL_STAGE_ORDER[i], st)] + d.events) && AppliesOnly(p, i, st, events)
    ensures forall step: Step | step.st == st :: AsksFirst(p, i, st, step)
  {
    hide Dispatch, AppliesPlan, AcceptsPlan, InputsOf;
    DispatchAuthorises(p, i, st, caches);
  }

  lemma FinishAuthorises(p: Process, i: nat, st: InstallState, caches: Caches, inputs: StageInputs)
    requires p.command.options.mode == Full && i < |FULL_STAGE_ORDER| && FULL_STAGE_ORDER[i] !in st.completed
    requires Dispatch(p, st, caches, FULL_STAGE_ORDER[i]).output.Returned?
    ensures var order := FULL_STAGE_ORDER;
            var d := Dispatch(p, st, caches, order[i]);
            var step := FinishStage(
              p, st, d.caches, order[i], if i + 1 < |order| then order[i + 1] else order[i], inputs,
              d.output.value, [Dispatched(order[i], st)] + d.events);
            AppliesOnly(p, i, st, step.events) && AsksFirst(p, i, st, step)
  {
    hide Dispatch, InputsOf, AppliesPlan, AcceptsPlan, FinishStage, Closes, DispatchLog;
    var order := FULL_STAGE_ORDER;
    var d := Dispatch(p, st, caches, order[i]);
    var next := if i + 1 < |order| then order[i + 1] else order[i];
    var events := [Dispatched(order[i], st)] + d.events;
    var step := FinishStage(p, st, d.caches, order[i], next, inputs, d.output.value, events);
    DispatchAuthorises(p, i, st, caches);
    DispatchEvents(p, st, caches, order[i]);
    FinishCloses(p, st, d.caches, order[i], next, inputs, d.output.value, events);
    ClosedShape(step, events, order[i], st);
    assert forall k | 0 <= k < |events| :: step.events[k] == events[k];
    if i == 3 || i == 8 {
      FinishConfirms(p, i, st, d.caches, next, inputs, d.output.value, events);
    }
  }

  lemma GuardAppliesNothing(p: Process, i: nat, st: InstallState, caches: Caches)
    requires i < |FULL_STAGE_ORDER| && FULL_STAGE_ORDER[i] in Guards()
    ensures var events := GuardStep(p, st, caches, FULL_STAGE_ORDER[i]).events;
            forall k | 0 <= k < |events| :: !events[k].Applied?
  {
    hide Dispatch, GuardStep, Closes, DispatchLog, AppliesPlan, AcceptsPlan;
    var stage := FULL_STAGE_ORDER[i];
    var head := [Dispatched(stage, st)] + Dispatch(p, st, caches, stage).events;
    DispatchAuthorises(p, i, st, caches);
    DispatchEvents(p, st, caches, stage);
    GuardCloses(p, st, caches, stage);
    ClosedShape(GuardStep(p, st, caches, stage), head, stage, st);
    PositionOfOrder(Full, i);
    assert forall k | 0 <= k < |head| :: GuardStep(p, st, caches, stage).events[k] == head[k];
  }

  lemma FinishConfirms(
    p: Process, i: nat, st: InstallState, caches: Caches, next: Stage,
    inputs: StageInputs, output: Output, events: seq<Event>)
    requires i == 3 || i == 8
    requires output.ConfirmOutput?
    ensures var step := FinishStage(p, st, caches, FULL_STAGE_ORDER[i], next, inputs, output, events);
            && (!output.accepted ==> step.st.completed == st.completed)
            && (output.accepted && i == 8 ==> step.st.dockerGroupAccepted == output.dockerGroup)
  {
    hide MergeReports;
  }

  /** What the loop knows when it reaches index `i`. */
  ghost predicate Trusted(p: Process, i: nat, st: InstallState, log: seq<Event>) {
    && AtIndex(Full, i, st)
    && Authorised(st, log)
    && (i > 0 ==> RecordedInstaller(st) == Some(p.command.installer))
  }

  ghost predicate Allowed(log: seq<Event>, k: nat)
    requires k < |log|
  {
    ApplyAllowed(log, k) && SaveAllowed(log, k)
  }

  lemma BootstrapRecorded(p: Process, i: nat, st: InstallState, caches: Caches)
    requires p.command.options.mode == Full && i < |FULL_STAGE_ORDER|
    requires i > 0 ==> RecordedInstaller(st) == Some(p.command.installer)
    requires !StageStep(p, i, st, caches).halted || i > 0
    ensures RecordedInstaller(StageStep(p, i, st, caches).st) == Some(p.command.installer)
  {
    hide GuardStep, FreshStep;
    StepShape(p, i, st, caches);
    PositionOfOrder(Full, i);
  }

  lemma JustAccepted(p: Process, i: nat, st: InstallState, log: seq<Event>, events: seq<Event>)
    requires i == 3 || i == 8
    requires |events| > 1 && AcceptsPlan(p, i, st, events[1])
    requires forall k | 0 <= k < |events| :: !events[k].Restarted?
    ensures AcceptedSince(
              log + events, if i == 3 then KernelPhase else TuningPhase,
              if i == 3 then st.kernel.planDigest else st.hostPlanDigest, st.hostAdapterId,
              events[1].granted, p.command.installer)
  {
    assert (log + events)[|log| + 1] == events[1];
    assert NoRestart(log + events, |log| + 1) by {
      forall m | |log| + 1 < m < |log + events| ensures !(log + events)[m].Restarted? {
        assert (log + events)[m] == events[m - |log|];
      }
    }
  }

  /** Which confirmations a state holds that has completed exactly `i` stages. */
  lemma FreshAt(i: nat, st: InstallState)
    requires i <= |FULL_STAGE_ORDER| && CompletedUpTo(Full, st, i)
    ensures Bootstrap in st.completed <==> i > 0
    ensures KernelConfirm in st.completed <==> i > 3
    ensures KernelApply in st.completed <==> i > 4
    ensures HostPlan in st.completed <==> i > 7
    ensures HostConfirm in st.completed <==> i > 8
  {
    hide Before;
    InBefore(Full, i, Bootstrap);
    InBefore(Full, i, KernelConfirm);
    InBefore(Full, i, KernelApply);
    InBefore(Full, i, HostPlan);
    InBefore(Full, i, HostConfirm);
  }

  predicate SameGrants(st: InstallState, st': InstallState) {
    && st'.kernel.planDigest == st.kernel.planDigest
    && st'.hostAdapterId == st.hostAdapterId
    && st'.hostPlanDigest == st.hostPlanDigest
    && st'.dockerGroupAccepted == st.dockerGroupAccepted
  }

  lemma AuthorisedSame(st: InstallState, st': InstallState, log: seq<Event>)
    requires Authorised(st, log) && SameGrants(st, st') && st'.completed == st.completed
    ensures Authorised(st', log)
  {
    hide AcceptedSince, OfPhase;
  }

  /** A stage that completes for the first time keeps the kernel confirmation, or has just obtained it. */
  lemma KernelStaysAccepted(p: Process, i: nat, st: InstallState, caches: Caches, log: seq<Event>)
    requires p.command.options.mode == Full && i < |FULL_STAGE_ORDER|
    requires Authorised(st, log) && CompletedUpTo(Full, st, i)
    requires Completes(p, i, st, StageStep(p, i, st, caches).st)
    requires RecordedInstaller(StageStep(p, i, st, caches).st) == Some(p.command.installer)
    requires i > 0 ==> RecordedInstaller(st) == Some(p.command.installer)
    ensures var step := StageStep(p, i, st, caches);
            KernelConfirm in step.st.completed ==>
              KernelAccepted(step.st, log + step.events) && step.st.hostAdapterId.Some?
  {
    hide StageStep, AcceptedSince, OfPhase, AcceptsPlan, AppliesPlan, HostAccepted, InputsOf, RecordedInstaller;
    var step := StageStep(p, i, st, caches);
    var all := log + step.events;
    StepShape(p, i, st, caches);
    StepWritesOnly(p, i, st, caches);
    FreshAt(i, st);
    PositionOfOrder(Full, i);
    if i == 3 {
      StepAuthorises(p, i, st, caches);
      JustAccepted(p, i, st, log, step.events);
      Granted(p, i, st, step.events[1]);
      AcceptedHasAdapter(all, KernelPhase, st.kernel.planDigest, st.hostAdapterId, false, p.command.installer);
    } else if i > 3 {
      var who :| AcceptedSince(log, KernelPhase, st.kernel.planDigest, st.hostAdapterId, false, who)
        && (KernelApply !in st.completed ==> RecordedInstaller(st) == Some(who));
      AcceptedHasAdapter(log, KernelPhase, st.kernel.planDigest, st.hostAdapterId, false, who);
      AcceptedStill(log, step.events, KernelPhase, st.kernel.planDigest, st.hostAdapterId, false, who);
    }
  }

  lemma HostStaysAccepted(p: Process, i: nat, st: InstallState, caches: Caches, log: seq<Event>)
    requires p.command.options.mode == Full && i < |FULL_STAGE_ORDER|
    requires Authorised(st, log) && CompletedUpTo(Full, st, i)
    requires Completes(p, i, st, StageStep(p, i, st, caches).st)
    ensures var step := StageStep(p, i, st, caches);
            && (HostPlan in step.st.completed ==> OfPhase(step.st.hostPlanDigest, TuningPhase))
            && (HostConfirm in step.st.completed ==> HostAccepted(step.st, log + step.events))
  {
    hide StageStep, AcceptedSince, OfPhase, AcceptsPlan, AppliesPlan, KernelAccepted, InputsOf, RecordedInstaller;
    var step := StageStep(p, i, st, caches);
    StepShape(p, i, st, caches);
    StepWritesOnly(p, i, st, caches);
    FreshAt(i, st);
    PositionOfOrder(Full, i);
    if i == 8 {
      StepAuthorises(p, i, st, caches);
      JustAccepted(p, i, st, log, step.events);
    } else if i > 8 {
      var who :| AcceptedSince(
        log, TuningPhase, st.hostPlanDigest, st.hostAdapterId, st.dockerGroupAccepted, who);
      AcceptedStill(
        log, step.events, TuningPhase, st.hostPlanDigest, st.hostAdapterId, st.dockerGroupAccepted, who);
    }
  }

  /** The state after an iteration holds no confirmation that was not given. */
  lemma StepStaysAuthorised(p: Process, i: nat, st: InstallState, caches: Caches, log: seq<Event>)
    requires p.command.options.mode == Full && i < |FULL_STAGE_ORDER|
    requires Trusted(p, i, st, log)
    ensures var step := StageStep(p, i, st, caches);
            Authorised(step.st, log + step.events)
  {
    hide StageStep, KernelAccepted, HostAccepted, OfPhase, InputsOf, RecordedInstaller;
    var step := StageStep(p, i, st, caches);
    StepShape(p, i, st, caches);
    PositionOfOrder(Full, i);
    if Completes(p, i, st, step.st) {
      StepAtIndex(p, i, st, caches);
      CompletedBootstrap(p, i, st, caches);
      KernelStaysAccepted(p, i, st, caches, log);
      HostStaysAccepted(p, i, st, caches, log);
    } else {
      StillAuthorised(st, log, step.events);
      UnfinishedKeepsGrants(p, i, st, caches);
      AuthorisedSame(st, step.st, log + step.events);
    }
  }

  lemma CompletedBootstrap(p: Process, i: nat, st: InstallState, caches: Caches)
    requires p.command.options.mode == Full && i < |FULL_STAGE_ORDER|
    requires i > 0 ==> RecordedInstaller(st) == Some(p.command.installer)
    requires Completes(p, i, st, StageStep(p, i, st, caches).st)
    ensures RecordedInstaller(StageStep(p, i, st, caches).st) == Some(p.command.installer)
  {
    hide StageStep;
    PositionOfOrder(Full, i);
  }

  lemma NoGrantInReport(p: Process, i: nat, st: InstallState, caches: Caches, output: Output)
    requires i == 2 || i == 7 || i == 8
    ensures output.ReportOutput? ==> ApplyOutput(p, st, caches, FULL_STAGE_ORDER[i], output).None?
  {
  }

  /** An iteration that completes nothing leaves every plan and grant alone. */
  lemma UnfinishedKeepsGrants(p: Process, i: nat, st: InstallState, caches: Caches)
    requires p.command.options.mode == Full && i < |FULL_STAGE_ORDER|
    requires !Completes(p, i, st, StageStep(p, i, st, caches).st)
    ensures SameGrants(st, StageStep(p, i, st, caches).st)
  {
    hide StageStep, ApplyOutput, OfPhase, InputsOf;
    StepShape(p, i, st, caches);
    StepWritesOnly(p, i, st, caches);
    PositionOfOrder(Full, i);
    if FULL_STAGE_ORDER[i] !in st.completed {
      var applied, caches', output := StepApplies(p, i, st, caches);
      if i == 2 || i == 7 || i == 8 {
        NoGrantInReport(p, i, st, caches', output);
      }
    }
  }

  lemma Granted(p: Process, i: nat, st: InstallState, e: Event)
    requires AcceptsPlan(p, i, st, e) && i == 3
    ensures !e.granted
  {
  }

  lemma AcceptedHasAdapter(
    log: seq<Event>, phase: Phase, digest: Option<PlanDigest>, adapterId: Option<string>,
    granted: bool, who: Identity)
    requires AcceptedSince(log, phase, digest, adapterId, granted, who)
    ensures adapterId.Some?
  {
  }

  lemma StepAllowed(p: Process, i: nat, st: InstallState, caches: Caches, log: seq<Event>, k: nat)
    requires p.command.options.mode == Full && i < |FULL_STAGE_ORDER|
    requires Trusted(p, i, st, log)
    requires |log| <= k < |log| + |StageStep(p, i, st, caches).events|
    ensures Allowed(log + StageStep(p, i, st, caches).events, k)
  {
    hide StageStep, AcceptedSince, Authorised, AppliesPlan, AsksFirst, Trusted, AtIndex, Completes, SameCheckpoint;
    var step := StageStep(p, i, st, caches);
    var all := log + step.events;
    assert all[k] == step.events[k - |log|];
    StepShape(p, i, st, caches);
    StepAuthorises(p, i, st, caches);
    if all[k].Applied? {
      StepAppliesAccepted(p, i, st, caches, log);
      assert all[..k] == log + [step.events[0]];
    }
    if all[k].Saved? {
      StepStaysAuthorised(p, i, st, caches, log);
      assert all[..k + 1] == all;
    }
  }

  /** A plan is applied only with its confirmation complete. */
  lemma StepAppliesAccepted(p: Process, i: nat, st: InstallState, caches: Caches, log: seq<Event>)
    requires p.command.options.mode == Full && i < |FULL_STAGE_ORDER|
    requires Trusted(p, i, st, log)
    requires |StageStep(p, i, st, caches).events| > 1 && StageStep(p, i, st, caches).events[1].Applied?
    ensures var step := StageStep(p, i, st, caches);
            ApplyAllowed(log + [step.events[0]] + [step.events[1]], |log| + 1)
  {
    hide StageStep, AcceptedSince, InputsOf, AcceptsPlan;
    var step := StageStep(p, i, st, caches);
    var before := log + [step.events[0]];
    StepShape(p, i, st, caches);
    StepAuthorises(p, i, st, caches);
    StepAtIndex(p, i, st, caches);
    FreshAt(i, st);
    StillAuthorised(st, log, [step.events[0]]);
    var e := step.events[1];
    if i == 4 {
      var who :| AcceptedSince(before, KernelPhase, st.kernel.planDigest, st.hostAdapterId, false, who)
        && RecordedInstaller(st) == Some(who);
      assert AcceptedSince(
        before, KernelPhase, Some(e.plan.Digest()), Some(e.plan.adapterId), e.dockerGroup, who);
    } else {
      var who :| AcceptedSince(
        before, TuningPhase, st.hostPlanDigest, st.hostAdapterId, st.dockerGroupAccepted, who);
      assert AcceptedSince(
        before, TuningPhase, Some(e.plan.Digest()), Some(e.plan.adapterId), e.dockerGroup, who);
    }
    assert (before + [e])[..|log| + 1] == before;
  }

  lemma AllowedMore(log: seq<Event>, more: seq<Event>, k: nat)
    requires k < |log| && Allowed(log, k)
    ensures Allowed(log + more, k)
  {
    assert (log + more)[..k] == log[..k];
    assert (log + more)[..k + 1] == log[..k + 1];
  }

  lemma {:induction false} LoopIsAuthorised(p: Process, i: nat, st: InstallState, caches: Caches, log: seq<Event>)
    requires p.command.options.mode == Full && i <= |FULL_STAGE_ORDER|
    requires Trusted(p, i, st, log)
    ensures var all := log + RunFrom(p, i, st, caches);
            forall k | |log| <= k < |all| :: Allowed(all, k)
    decreases |FULL_STAGE_ORDER| - i
  {
    hide StageStep, Allowed, Authorised, AtIndex, RecordedInstaller;
    var all := log + RunFrom(p, i, st, caches);
    if i < |FULL_STAGE_ORDER| {
      var step := StageStep(p, i, st, caches);
      var rest := if step.halted then [] else RunFrom(p, i + 1, step.st, step.caches);
      var here := log + step.events;
      assert all == here + rest;
      if !step.halted {
        StepStaysAuthorised(p, i, st, caches, log);
        StepAtIndex(p, i, st, caches);
        BootstrapRecorded(p, i, st, caches);
        LoopIsAuthorised(p, i + 1, step.st, step.caches, here);
      }
      forall k | |log| <= k < |all| ensures Allowed(all, k) {
        if k < |here| {
          StepAllowed(p, i, st, caches, log, k);
          AllowedMore(here, rest, k);
        } else {
          assert Allowed(here + RunFrom(p, i + 1, step.st, step.caches), k);
        }
      }
    }
  }

  lemma {:induction false} ContainersApplyNothing(p: Process, i: nat, st: InstallState, caches: Caches)
    requires p.command.options.mode == Container && i <= |CONTAINER_STAGE_ORDER|
    ensures forall k | 0 <= k < |RunFrom(p, i, st, caches)| :: !RunFrom(p, i, st, caches)[k].Applied?
    decreases |CONTAINER_STAGE_ORDER| - i
  {
    hide StageStep;
    if i < |CONTAINER_STAGE_ORDER| {
      var step := StageStep(p, i, st, caches);
      ContainerStepAppliesNothing(p, i, st, caches);
      if !step.halted {
        ContainersApplyNothing(p, i + 1, step.st, step.caches);
      }
    }
  }

  lemma ContainerStepAppliesNothing(p: Process, i: nat, st: InstallState, caches: Caches)
    requires p.command.options.mode == Container && i < |CONTAINER_STAGE_ORDER|
    ensures var events := StageStep(p, i, st, caches).events;
            forall k | 0 <= k < |events| :: !events[k].Applied?
  {
    hide InputsOf, DiskCheck, Dispatch, FinishStage, GuardStep;
    var order := CONTAINER_STAGE_ORDER;
    var stage := order[i];
    if stage in st.completed {
      ContainerHasNoGuards(i);
    } else {
      var (caches', _) := DiskCheck(p, st, caches, stage);
      ContainerDispatch(p, st, caches', stage);
      var inputs := InputsOf(p.command, p.facts, stage, st);
      var d := Dispatch(p, st, caches', stage);
      if d.output.Returned? && inputs.Some? {
        var next := if i + 1 < |order| then order[i + 1] else stage;
        assert [Dispatched(stage, st)] + d.events == [Dispatched(stage, st)];
        FinishCloses(p, st, d.caches, stage, next, inputs.value, d.output.value, [Dispatched(stage, st)]);
      }
    }
  }

  lemma ContainerHasNoGuards(i: nat)
    requires i < |CONTAINER_STAGE_ORDER|
    ensures CONTAINER_STAGE_ORDER[i] !in Guards()
  {
    PositionOfOrder(Container, i);
  }

  lemma ContainerDispatch(p: Process, st: InstallState, caches: Caches, stage: Stage)
    requires stage in CONTAINER_STAGE_ORDER
    ensures Dispatch(p, st, caches, stage).events == []
  {
  }

  /** Adopting a newer installer keeps every confirmation. */
  lemma AdoptionStaysAuthorised(p: Process, st: InstallState, log: seq<Event>)
    requires Authorised(st, log) && ValidTransition(Full, AdoptUpdate(p, st))
    ensures Authorised(AdoptUpdate(p, st), log)
  {
    hide AcceptedSince, OfPhase, InputsOf;
    var st' := AdoptUpdate(p, st);
    if st' != st {
      var n: nat :| n <= |FULL_STAGE_ORDER| && CompletedUpTo(Full, st', n);
      AdoptsLate(p, st, n);
      FreshAt(n, st');
      assert st'.completed.Keys == st.completed.Keys;
    }
  }

  lemma AdoptsLate(p: Process, st: InstallState, n: nat)
    requires AdoptUpdate(p, st) != st && CompletedUpTo(Full, AdoptUpdate(p, st), n)
    ensures n > 4 && AdoptUpdate(p, st).completed.Keys == st.completed.Keys
  {
    hide InputsOf;
    if n <= 4 {
      PositionOfOrder(Full, n);
      var patch := st.installer.version.text == "0.3.0" && p.command.installer.version.text == "0.3.1";
      var start := if patch then 6 else 10;
      var k :| start <= k < |FULL_STAGE_ORDER| && FULL_STAGE_ORDER[k] == st.currentStage;
      PositionOfOrder(Full, k);
      assert false;
    }
  }

  ghost predicate StoreAuthorised(stored: Stored, log: seq<Event>) {
    Standing(stored).Some? && Standing(stored).value.mode == Full ==> Authorised(Standing(stored).value, log)
  }

  lemma NothingToAuthorise(st: InstallState, log: seq<Event>)
    requires st.completed == map[]
    ensures Authorised(st, log)
  {
  }

  lemma PlainIsAllowed(log: seq<Event>, k: nat)
    requires k < |log| && !log[k].Applied? && (log[k].Saved? ==> log[k].saved.mode == Container)
    ensures Allowed(log, k)
  {
  }

  /** One uninterrupted process, started on a trusted state file. */
  lemma RunIsAuthorised(p: Process, stored: Stored, before: seq<Event>)
    requires StoreAuthorised(stored, before)
    ensures var all := before + Run(p, stored);
            forall k | |before| <= k < |all| :: Allowed(all, k)
  {
    hide RunFrom, Begin, Authorised, ApplyAllowed, Standing, Run, Allowed;
    if p.command.options.mode == Full {
      FullRunIsAuthorised(p, stored, before);
    } else {
      var all := before + Run(p, stored);
      SavedStatesAreResumable(p, stored);
      ContainerRunAppliesNothing(p, stored);
      forall k | |before| <= k < |all| ensures Allowed(all, k) {
        assert all[k] == Run(p, stored)[k - |before|];
        assert Healthy(Container, all[k]);
        PlainIsAllowed(all, k);
      }
    }
  }

  lemma ContainerRunAppliesNothing(p: Process, stored: Stored)
    requires p.command.options.mode == Container
    ensures forall k | 0 <= k < |Run(p, stored)| :: !Run(p, stored)[k].Applied?
  {
    hide RunFrom, Begin, Standing;
    BeginShape(p, stored);
    if Begin(p, stored).st.Some? {
      ContainersApplyNothing(p, 0, Begin(p, stored).st.value, NO_CACHES);
    }
  }

  lemma FullRunIsAuthorised(p: Process, stored: Stored, before: seq<Event>)
    requires StoreAuthorised(stored, before) && p.command.options.mode == Full
    ensures var all := before + Run(p, stored);
            forall k | |before| <= k < |all| :: Allowed(all, k)
  {
    hide RunFrom, Begin, Authorised, ApplyAllowed, Standing, ValidTransition, Allowed;
    BeginShape(p, stored);
    var start := Begin(p, stored);
    var here := before + start.events;
    var rest := if start.st.None? then [] else RunFrom(p, 0, start.st.value, NO_CACHES);
    var all := before + Run(p, stored);
    assert all == here + rest;
    if start.st.Some? {
      StartIsAuthorised(p, stored, before);
      ValidAtStart(Full, start.st.value);
      LoopIsAuthorised(p, 0, start.st.value, NO_CACHES, here);
    }
    forall k | |before| <= k < |all| ensures Allowed(all, k) {
      if k < |here| {
        assert here[k] == start.events[k - |before|];
        if here[k].Saved? {
          assert here[..k + 1] == here;
          SavedIsAllowed(here, k);
        } else {
          PlainIsAllowed(here, k);
        }
        AllowedMore(here, rest, k);
      } else {
        assert Allowed(here + RunFrom(p, 0, start.st.value, NO_CACHES), k);
      }
    }
  }

  lemma SavedIsAllowed(log: seq<Event>, k: nat)
    requires k < |log| && log[k].Saved? && Authorised(log[k].saved, log[..k + 1])
    ensures Allowed(log, k)
  {
  }

  lemma StartIsAuthorised(p: Process, stored: Stored, before: seq<Event>)
    requires StoreAuthorised(stored, before) && p.command.options.mode == Full
    requires Begin(p, stored).st.Some?
    ensures Authorised(Begin(p, stored).st.value, before + Begin(p, stored).events)
  {
    hide Begin, Standing, ValidTransition, Authorised, AdoptUpdate;
    BeginShape(p, stored);
    var start := Begin(p, stored);
    if Standing(stored).None? {
      NothingToAuthorise(start.st.value, before + start.events);
    } else {
      var st := Standing(stored).value;
      AdoptionKeepsMode(p, st);
      if start.events != [] && start.events[0].Restarted? {
        NothingToAuthorise(st, before + start.events);
      } else {
        StillAuthorised(st, before, start.events);
      }
      AdoptionStaysAuthorised(p, st, before + start.events);
    }
  }

  lemma AdoptionKeepsMode(p: Process, st: InstallState)
    ensures AdoptUpdate(p, st).mode == st.mode
    ensures ValidTransition(Full, AdoptUpdate(p, st)) ==> st.mode == Full
  {
    hide InputsOf;
  }

  lemma AllowedPrefix(log: seq<Event>, cut: nat, k: nat)
    requires k < cut <= |log| && Allowed(log, k)
    ensures Allowed(log[..cut], k)
  {
    assert log[..cut][..k] == log[..k];
    assert log[..cut][..k + 1] == log[..k + 1];
  }

  /** A life keeps the trust in the state file, wherever it is cut. */
  lemma LifeIsAuthorised(life: Life, stored: Stored, before: seq<Event>)
    requires StoreAuthorised(stored, before)
    ensures var all := before + LogOf(life, stored);
            && StoreAuthorised(LeftBy(life, stored), all)
            && forall k | |before| <= k < |all| :: Allowed(all, k)
  {
    hide Run, Allowed, Authorised, Standing;
    var log := Run(life.process, stored);
    var done := LogOf(life, stored);
    var all := before + done;
    RunIsAuthorised(life.process, stored, before);
    assert all == (before + log)[..|all|];
    forall k | |before| <= k < |all| ensures Allowed(all, k) {
      AllowedPrefix(before + log, |all|, k);
    }
    RestartsFirst(life.process, stored);
    var k := LeftByLife(life, stored);
    if k >= 0 {
      assert Allowed(all, |before| + k);
      if done[k].saved.mode == Full {
        SavedWasAuthorised(all, |before| + k);
        StillAuthorised(done[k].saved, all[..|before| + k + 1], all[|before| + k + 1..]);
        assert all == all[..|before| + k + 1] + all[|before| + k + 1..];
      }
    } else if Standing(stored).Some? && Standing(stored).value.mode == Full {
      if done != [] && done[0].Restarted? {
        NothingToAuthorise(Standing(stored).value, all);
      } else {
        StillAuthorised(Standing(stored).value, before, done);
      }
    }
  }

  lemma SavedWasAuthorised(log: seq<Event>, k: nat)
    requires k < |log| && Allowed(log, k) && log[k].Saved? && log[k].saved.mode == Full
    ensures Authorised(log[k].saved, log[..k + 1])
  {
  }

  lemma {:induction false} HistoryIsTrusted(initial: Stored, lives: seq<Life>)
    requires Outset(initial)
    ensures var log := History(initial, lives);
            && StoreAuthorised(StoredAfter(initial, lives), log)
            && forall k | 0 <= k < |log| :: Allowed(log, k)
    decreases |lives|
  {
    hide Allowed, Authorised, Standing, LogOf, LeftBy;
    if lives == [] {
      OutsetIsTrusted(initial);
    } else {
      var earlier, last := lives[..|lives| - 1], lives[|lives| - 1];
      var before := History(initial, earlier);
      var stored := StoredAfter(initial, earlier);
      HistoryIsTrusted(initial, earlier);
      LifeIsAuthorised(last, stored, before);
      var done := LogOf(last, stored);
      var log := History(initial, lives);
      assert log == before + done;
      forall k | 0 <= k < |log| ensures Allowed(log, k) {
        if k < |before| {
          AllowedMore(before, done, k);
        }
      }
    }
  }

  lemma OutsetIsTrusted(initial: Stored)
    requires Outset(initial)
    ensures StoreAuthorised(initial, [])
  {
    hide Decode;
    if Standing(initial).Some? && initial.payload.core.mode == Full {
      MigrationForgets(initial.payload);
    } else if Standing(initial).Some? {
      MigrationKeepsContainers(initial.payload);
    }
  }

  /**
   Over any number of processes, installer versions and crashes, starting from no state file or
   from one of an older schema: every plan the host is given was accepted, with the same digest
   and adapter, after the installation last began again.
   */
  lemma EveryApplyWasAccepted(initial: Stored, lives: seq<Life>, k: nat)
    requires Outset(initial)
    requires k < |History(initial, lives)|
    ensures ApplyAllowed(History(initial, lives), k)
  {
    hide SaveAllowed, ApplyAllowed, History;
    HistoryIsTrusted(initial, lives);
    assert Allowed(History(initial, lives), k);
  }
}
