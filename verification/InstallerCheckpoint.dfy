/**
 Checkpoints: whatever a process saves is a prefix of the stage order that the next
 process resumes, and nothing but the two guards is ever dispatched twice.
 */
module InstallerCheckpoint {
  import opened Wrappers
  import opened InstallerModel
  import opened InstallerStages
  import opened InstallerRun

  /** The index of a stage in the order of its mode; past the end when it has none. */
  function Position(mode: Mode, stage: Stage): nat {
    match mode
    case Full =>
      (match stage
       case Bootstrap => 0 case HostPreflight => 1 case KernelPlan => 2 case KernelConfirm => 3
       case KernelApply => 4 case KernelRebootPending => 5 case KernelVerify => 6 case HostPlan => 7
       case HostConfirm => 8 case HostApply => 9 case HostVerify => 10 case ReleaseResolve => 11
       case ImagePullOrBuild => 12 case ImageVerify => 13 case ProjectInit => 14
       case ProjectVerify => 15 case Complete => 16 case ContainerHostCheck => 17)
    case Container =>
      (match stage
       case Bootstrap => 0 case ContainerHostCheck => 1 case ReleaseResolve => 2
       case ImagePullOrBuild => 3 case ImageVerify => 4 case ProjectInit => 5
       case ProjectVerify => 6 case Complete => 7 case _ => 8)
  }

  lemma PositionOfOrder(mode: Mode, i: nat)
    requires i < |StageOrder(mode)|
    ensures Position(mode, StageOrder(mode)[i]) == i
  {
  }

  lemma OrderOfPosition(mode: Mode, stage: Stage)
    requires Position(mode, stage) < |StageOrder(mode)|
    ensures StageOrder(mode)[Position(mode, stage)] == stage
  {
  }

  lemma InBefore(mode: Mode, n: nat, stage: Stage)
    requires n <= |StageOrder(mode)|
    ensures stage in Before(mode, n) <==> Position(mode, stage) < n
  {
    var order := StageOrder(mode);
    if stage in Before(mode, n) {
      var i :| 0 <= i < n && order[..n][i] == stage;
      PositionOfOrder(mode, i);
    }
    if Position(mode, stage) < n {
      OrderOfPosition(mode, stage);
      assert order[..n][Position(mode, stage)] == stage;
    }
  }

  lemma BeforeNext(mode: Mode, n: nat)
    requires n < |StageOrder(mode)|
    ensures Before(mode, n + 1) == Before(mode, n) + {StageOrder(mode)[n]}
    ensures StageOrder(mode)[n] !in Before(mode, n)
  {
    var order := StageOrder(mode);
    assert order[..n + 1] == order[..n] + [order[n]];
    PositionOfOrder(mode, n);
    InBefore(mode, n, order[n]);
  }

  predicate SameCheckpoint(st: InstallState, st': InstallState) {
    && st'.mode == st.mode
    && st'.targetUser == st.targetUser
    && st'.completed == st.completed
    && st'.currentStage == st.currentStage
  }

  lemma ApplyKeepsCheckpoint(p: Process, st: InstallState, caches: Caches, stage: Stage, output: Output)
    ensures ApplyOutput(p, st, caches, stage, output).Some? ==>
              SameCheckpoint(st, ApplyOutput(p, st, caches, stage, output).value)
  {
  }

  /** The log of one dispatch: the call itself, then nothing but plans and reports. */
  predicate DispatchLog(events: seq<Event>, stage: Stage, st: InstallState) {
    && |events| > 0
    && events[0] == Dispatched(stage, st)
    && forall k | 1 <= k < |events| :: events[k].Accepted? || events[k].Applied? || events[k].Verified?
  }

  lemma DispatchEvents(p: Process, st: InstallState, caches: Caches, stage: Stage)
    ensures DispatchLog([Dispatched(stage, st)] + Dispatch(p, st, caches, stage).events, stage, st)
  {
  }

  /** The checkpoint a stage leaves when it completes. */
  predicate Completes(p: Process, i: nat, st: InstallState, st': InstallState)
    requires i < |StageOrder(p.command.options.mode)|
  {
    var order := StageOrder(p.command.options.mode);
    var inputs := InputsOf(p.command, p.facts, order[i], st);
    && order[i] !in st.completed
    && st.currentStage == order[i]
    && inputs.Some?
    && st'.mode == st.mode
    && st'.targetUser == st.targetUser
    && st'.completed == st.completed[order[i] := InputDigest(inputs.value)]
    && st'.currentStage == if i + 1 < |order| then order[i + 1] else order[i]
  }

  /** The save, if any, is the last event and holds the new state. */
  predicate SavesLast(step: Step) {
    forall k | 0 <= k < |step.events| && step.events[k].Saved? ::
      k == |step.events| - 1 && step.events[k].saved == step.st
  }

  /** A stage is dispatched at most once in an iteration, and before anything else. */
  predicate DispatchesFirst(step: Step, stage: Stage, st: InstallState) {
    forall k | 0 <= k < |step.events| && step.events[k].Dispatched? ::
      k == 0 && step.events[0] == Dispatched(stage, st)
  }

  predicate Quiet(step: Step, allowIllegal: bool) {
    forall k | 0 <= k < |step.events| ::
      !step.events[k].Restarted? && (step.events[k].IllegalTransition? ==> allowIllegal)
  }

  /** An iteration that dispatched: nothing more, or a failure, or one save of the new state. */
  predicate Closes(step: Step, head: seq<Event>, st: InstallState) {
    || (step.events == head && step.st == st)
    || (step.events == head + [Failed] && step.st == st)
    || step.events == head + [Saved(step.st)]
  }

  lemma GuardCloses(p: Process, st: InstallState, caches: Caches, stage: Stage)
    ensures Closes(
              GuardStep(p, st, caches, stage), [Dispatched(stage, st)] + Dispatch(p, st, caches, stage).events, st)
  {
    hide Dispatch, Recorded, ResultOf;
  }

  lemma FinishCloses(
    p: Process, st: InstallState, caches: Caches, stage: Stage, next: Stage,
    inputs: StageInputs, output: Output, events: seq<Event>)
    ensures Closes(FinishStage(p, st, caches, stage, next, inputs, output, events), events, st)
  {
    hide Settled, ResultOf;
  }

  lemma ClosedShape(step: Step, head: seq<Event>, stage: Stage, st: InstallState)
    requires Closes(step, head, st) && DispatchLog(head, stage, st)
    ensures SavesLast(step) && Quiet(step, false) && DispatchesFirst(step, stage, st)
    ensures step.st != st ==> step.events != [] && step.events[|step.events| - 1] == Saved(step.st)
    ensures |head| <= |step.events| <= |head| + 1 && step.events[..|head|] == head
    ensures |step.events| > |head| ==> step.events[|head|].Saved? || step.events[|head|].Failed?
  {
  }

  lemma GuardKeepsCheckpoint(p: Process, st: InstallState, caches: Caches, stage: Stage)
    ensures SameCheckpoint(st, GuardStep(p, st, caches, stage).st)
  {
    hide Dispatch, ApplyOutput, ResultOf, MergeReports;
    var d := Dispatch(p, st, caches, stage);
    if d.output.Returned? {
      ApplyKeepsCheckpoint(p, st, d.caches, stage, d.output.value);
    }
  }

  lemma GuardShape(p: Process, st: InstallState, caches: Caches, stage: Stage)
    ensures var step := GuardStep(p, st, caches, stage);
            && SavesLast(step) && Quiet(step, false) && SameCheckpoint(st, step.st)
            && DispatchesFirst(step, stage, st)
            && (step.st != st ==> step.events != [] && step.events[|step.events| - 1] == Saved(step.st))
  {
    hide Dispatch, GuardStep, SameCheckpoint, Closes, DispatchLog, SavesLast, Quiet, DispatchesFirst;
    var head := [Dispatched(stage, st)] + Dispatch(p, st, caches, stage).events;
    DispatchEvents(p, st, caches, stage);
    GuardCloses(p, st, caches, stage);
    ClosedShape(GuardStep(p, st, caches, stage), head, stage, st);
    GuardKeepsCheckpoint(p, st, caches, stage);
  }

  lemma FinishShape(
    p: Process, i: nat, st: InstallState, caches: Caches, output: Output, events: seq<Event>)
    requires i < |StageOrder(p.command.options.mode)|
    requires var stage := StageOrder(p.command.options.mode)[i];
             stage !in st.completed && st.currentStage == stage
             && InputsOf(p.command, p.facts, stage, st).Some?
    requires DispatchLog(events, StageOrder(p.command.options.mode)[i], st)
    ensures var order := StageOrder(p.command.options.mode);
            var step := FinishStage(
              p, st, caches, order[i], if i + 1 < |order| then order[i + 1] else order[i],
              InputsOf(p.command, p.facts, order[i], st).value, output, events);
            && SavesLast(step) && Quiet(step, false) && DispatchesFirst(step, order[i], st)
            && (SameCheckpoint(st, step.st) || Completes(p, i, st, step.st))
            && (!step.halted ==> Completes(p, i, st, step.st))
            && (step.st != st ==> step.events != [] && step.events[|step.events| - 1] == Saved(step.st))
  {
    hide Dispatch, ApplyOutput, ResultOf, InputsOf, Settled, SameCheckpoint, Completes;
    hide Closes, DispatchLog, SavesLast, Quiet, DispatchesFirst;
    var order := StageOrder(p.command.options.mode);
    var inputs := InputsOf(p.command, p.facts, order[i], st).value;
    var next := if i + 1 < |order| then order[i + 1] else order[i];
    FinishCloses(p, st, caches, order[i], next, inputs, output, events);
    ClosedShape(FinishStage(p, st, caches, order[i], next, inputs, output, events), events, order[i], st);
    if ResultOf(order[i], output).Some? {
      SettledCheckpoint(p, i, st, caches, inputs, output, ResultOf(order[i], output).value);
    }
    SameIsSame(st);
  }

  lemma SameIsSame(st: InstallState)
    ensures SameCheckpoint(st, st)
  {
  }

  /** A stage that settles keeps the checkpoint or completes; it completes if it passed. */
  lemma SettledCheckpoint(
    p: Process, i: nat, st: InstallState, caches: Caches, inputs: StageInputs, output: Output, result: StageResult)
    requires i < |StageOrder(p.command.options.mode)|
    requires var stage := StageOrder(p.command.options.mode)[i];
             stage !in st.completed && st.currentStage == stage
             && InputsOf(p.command, p.facts, stage, st) == Some(inputs)
    ensures var order := StageOrder(p.command.options.mode);
            var saved := Settled(
              p, st, caches, order[i], if i + 1 < |order| then order[i + 1] else order[i], inputs, output, result);
            saved.Some? ==>
              && (SameCheckpoint(st, saved.value) || Completes(p, i, st, saved.value))
              && (result.outcome == Passed ==> Completes(p, i, st, saved.value))
  {
    hide ApplyOutput, InputsOf, MergeReports;
    ApplyKeepsCheckpoint(p, st, caches, StageOrder(p.command.options.mode)[i], output);
  }

  /** What one iteration of the loop may do to the checkpoint and to the log. */
  lemma StepShape(p: Process, i: nat, st: InstallState, caches: Caches)
    requires i < |StageOrder(p.command.options.mode)|
    ensures var order := StageOrder(p.command.options.mode);
            var step := StageStep(p, i, st, caches);
            && SavesLast(step) && DispatchesFirst(step, order[i], st)
            && Quiet(step, order[i] !in st.completed && st.currentStage != order[i])
            && (SameCheckpoint(st, step.st) || Completes(p, i, st, step.st))
            && (!step.halted ==> if order[i] in st.completed then SameCheckpoint(st, step.st)
                                 else Completes(p, i, st, step.st))
            && (step.st != st ==> step.events != [] && step.events[|step.events| - 1] == Saved(step.st))
            && (order[i] in st.completed && order[i] !in Guards() ==> step.st == st)
  {
    hide Dispatch, GuardStep, FinishStage, DiskCheck, InputsOf;
    var order := StageOrder(p.command.options.mode);
    var stage := order[i];
    if stage in st.completed {
      GuardShape(p, st, caches, stage);
    } else {
      var inputs := InputsOf(p.command, p.facts, stage, st);
      if st.currentStage == stage && inputs.Some? {
        var (caches', enough) := DiskCheck(p, st, caches, stage);
        var d := Dispatch(p, st, caches', stage);
        DispatchEvents(p, st, caches', stage);
        var events := [Dispatched(stage, st)] + d.events;
        if enough && d.output.Returned? {
          FinishShape(p, i, st, d.caches, d.output.value, events);
        }
      }
    }
  }

  /** `st'` is `applied` under a newer checkpoint. */
  predicate Checkpointed(applied: InstallState, st': InstallState) {
    st' == applied.(
      completed := st'.completed, currentStage := st'.currentStage,
      reports := st'.reports, updatedAt := st'.updatedAt)
  }

  lemma RecordedApplies(
    p: Process, st: InstallState, caches: Caches, stage: Stage, output: Output, result: StageResult)
    returns (applied: InstallState)
    ensures var saved := Recorded(p, st, caches, stage, output, result);
            && (applied == st || ApplyOutput(p, st, caches, stage, output) == Some(applied))
            && (saved.Some? ==> Checkpointed(applied, saved.value))
            && (saved.Some? ==> saved.value.completed == st.completed)
            && (result.outcome == OutcomeBlocked ==> applied == st || output.ReportOutput?)
  {
    hide ApplyOutput, MergeReports;
    applied := st;
    ApplyKeepsCheckpoint(p, st, caches, stage, output);
    if (result.outcome != OutcomeBlocked || output.ReportOutput?)
       && ApplyOutput(p, st, caches, stage, output).Some? {
      applied := ApplyOutput(p, st, caches, stage, output).value;
    }
  }

  lemma GuardApplies(p: Process, st: InstallState, caches: Caches, stage: Stage)
    returns (applied: InstallState, caches': Caches, output: Output)
    ensures applied == st || ApplyOutput(p, st, caches', stage, output) == Some(applied)
    ensures Checkpointed(applied, GuardStep(p, st, caches, stage).st)
  {
    hide Dispatch, ApplyOutput, ResultOf, Recorded;
    var d := Dispatch(p, st, caches, stage);
    applied, caches', output := st, d.caches, PlainOutput(StageResult([], Passed));
    if d.output.Returned? && ResultOf(stage, d.output.value).Some? {
      var result := ResultOf(stage, d.output.value).value;
      if Recorded(p, st, caches', stage, d.output.value, result).Some? {
        output := d.output.value;
        applied := RecordedApplies(p, st, caches', stage, output, result);
      }
    }
  }

  lemma SettledApplies(
    p: Process, st: InstallState, caches: Caches, stage: Stage, next: Stage,
    inputs: StageInputs, output: Output, result: StageResult)
    returns (applied: InstallState)
    requires stage !in st.completed
    ensures var saved := Settled(p, st, caches, stage, next, inputs, output, result);
            && (applied == st || ApplyOutput(p, st, caches, stage, output) == Some(applied))
            && (saved.Some? ==>
                  && Checkpointed(applied, saved.value)
                  && (stage in saved.value.completed ==> ApplyOutput(p, st, caches, stage, output) == Some(applied))
                  && (stage !in saved.value.completed ==> applied == st || output.ReportOutput?))
  {
    hide ApplyOutput, MergeReports, Recorded, Checkpointed;
    applied := st;
    if result.outcome == OutcomeBlocked {
      applied := RecordedApplies(p, st, caches, stage, output, result);
    } else if stage == KernelRebootPending && result.outcome == ActionRequired {
      AddsReports(p, st, result);
    } else if ApplyOutput(p, st, caches, stage, output).Some? {
      applied := ApplyOutput(p, st, caches, stage, output).value;
      Checkpoints(p, applied, stage, inputs, next, result);
    }
  }

  lemma AddsReports(p: Process, st: InstallState, result: StageResult)
    ensures var st' := WithReports(p, st, result); Checkpointed(st, st') && st'.completed == st.completed
  {
    hide MergeReports;
  }

  lemma Checkpoints(
    p: Process, applied: InstallState, stage: Stage, inputs: StageInputs, next: Stage, result: StageResult)
    ensures var st' := Checkpoint(p, applied, stage, inputs, next, result);
            Checkpointed(applied, st') && stage in st'.completed
  {
    hide MergeReports;
  }

  lemma CheckpointedItself(st: InstallState)
    ensures Checkpointed(st, st)
  {
  }

  /** The state a finished stage leaves: the one it saved, or else the one it had. */
  function StateSaved(st: InstallState, saved: Option<InstallState>): InstallState {
    if saved.Some? then saved.value else st
  }

  lemma FinishSaves(
    p: Process, st: InstallState, caches: Caches, stage: Stage, next: Stage,
    inputs: StageInputs, output: Output, events: seq<Event>)
    ensures var result := ResultOf(stage, output);
            FinishStage(p, st, caches, stage, next, inputs, output, events).st
            == if result.None? then st
               else StateSaved(st, Settled(p, st, caches, stage, next, inputs, output, result.value))
  {
    hide ResultOf, Settled;
  }

  lemma FinishApplies(
    p: Process, st: InstallState, caches: Caches, stage: Stage, next: Stage,
    inputs: StageInputs, output: Output, events: seq<Event>)
    returns (applied: InstallState)
    requires stage !in st.completed
    ensures var step := FinishStage(p, st, caches, stage, next, inputs, output, events);
            && (applied == st || ApplyOutput(p, st, caches, stage, output) == Some(applied))
            && Checkpointed(applied, step.st)
            && (stage in step.st.completed ==> ApplyOutput(p, st, caches, stage, output) == Some(applied))
            && (stage !in step.st.completed ==> applied == st || output.ReportOutput?)
  {
    hide ApplyOutput, ResultOf, Settled, Checkpointed, FinishStage;
    applied := st;
    CheckpointedItself(st);
    FinishSaves(p, st, caches, stage, next, inputs, output, events);
    var result := ResultOf(stage, output);
    if result.Some? {
      if Settled(p, st, caches, stage, next, inputs, output, result.value).Some? {
        applied := SettledApplies(p, st, caches, stage, next, inputs, output, result.value);
      }
    }
  }

  /** An iteration changes the state by applying one output of its stage, or not at all. */
  lemma StepApplies(p: Process, i: nat, st: InstallState, caches: Caches)
    returns (applied: InstallState, caches': Caches, output: Output)
    requires i < |StageOrder(p.command.options.mode)|
    ensures var stage := StageOrder(p.command.options.mode)[i];
            var step := StageStep(p, i, st, caches);
            && (applied == st || ApplyOutput(p, st, caches', stage, output) == Some(applied))
            && Checkpointed(applied, step.st)
            && (Completes(p, i, st, step.st) ==> ApplyOutput(p, st, caches', stage, output) == Some(applied))
            && (stage !in st.completed && stage !in step.st.completed ==> applied == st || output.ReportOutput?)
  {
    hide Dispatch, ApplyOutput, GuardStep, FinishStage, DiskCheck, InputsOf;
    var order := StageOrder(p.command.options.mode);
    var stage := order[i];
    applied, caches', output := st, caches, PlainOutput(StageResult([], Passed));
    if stage in st.completed {
      applied, caches', output := GuardApplies(p, st, caches, stage);
      if StageStep(p, i, st, caches) != GuardStep(p, st, caches, stage) {
        applied := st;
      }
    } else {
      var inputs := InputsOf(p.command, p.facts, stage, st);
      if st.currentStage == stage && inputs.Some? {
        var (disked, enough) := DiskCheck(p, st, caches, stage);
        var d := Dispatch(p, st, disked, stage);
        if enough && d.output.Returned? {
          caches', output := d.caches, d.output.value;
          applied := FinishApplies(
            p, st, caches', stage, if i + 1 < |order| then order[i + 1] else stage, inputs.value, output,
            [Dispatched(stage, st)] + d.events);
        }
      }
    }
  }

  /** All stages before index `i` are complete and the state can be resumed. */
  predicate AtIndex(mode: Mode, i: nat, st: InstallState) {
    exists n: nat | i <= n <= |StageOrder(mode)| :: CompletedUpTo(mode, st, n)
  }

  lemma CompletesNext(p: Process, i: nat, st: InstallState, st': InstallState)
    requires i < |StageOrder(p.command.options.mode)|
    requires CompletedUpTo(p.command.options.mode, st, i) && Completes(p, i, st, st')
    ensures CompletedUpTo(p.command.options.mode, st', i + 1)
  {
    BeforeNext(p.command.options.mode, i);
  }

  lemma StepAtIndex(p: Process, i: nat, st: InstallState, caches: Caches)
    requires i < |StageOrder(p.command.options.mode)|
    requires AtIndex(p.command.options.mode, i, st)
    ensures var mode := p.command.options.mode;
            var step := StageStep(p, i, st, caches);
            && ValidTransition(mode, step.st)
            && (!step.halted ==> AtIndex(mode, i + 1, step.st))
            && Quiet(step, false)
            && (StageOrder(mode)[i] in st.completed || CompletedUpTo(mode, st, i))
  {
    hide StageStep;
    var mode := p.command.options.mode;
    var n: nat :| i <= n <= |StageOrder(mode)| && CompletedUpTo(mode, st, n);
    var step := StageStep(p, i, st, caches);
    StepShape(p, i, st, caches);
    PositionOfOrder(mode, i);
    InBefore(mode, n, StageOrder(mode)[i]);
    if SameCheckpoint(st, step.st) {
      assert CompletedUpTo(mode, step.st, n);
    } else {
      CompletesNext(p, i, st, step.st);
    }
  }

  /** An event a healthy process may leave: every save can be resumed. */
  predicate Healthy(mode: Mode, e: Event) {
    !e.IllegalTransition? && (e.Saved? ==> ValidTransition(mode, e.saved))
  }

  predicate HealthyLog(mode: Mode, log: seq<Event>) {
    forall k | 0 <= k < |log| :: Healthy(mode, log[k])
  }

  /** Every state saved by the loop can be resumed, and the loop never meets a foreign stage. */
  lemma {:induction false} LoopSavesCheckpoints(p: Process, i: nat, st: InstallState, caches: Caches)
    requires i <= |StageOrder(p.command.options.mode)|
    requires AtIndex(p.command.options.mode, i, st)
    ensures HealthyLog(p.command.options.mode, RunFrom(p, i, st, caches))
    decreases |StageOrder(p.command.options.mode)| - i
  {
    hide StageStep, ValidTransition, AtIndex;
    var mode := p.command.options.mode;
    if i < |StageOrder(mode)| {
      var step := StageStep(p, i, st, caches);
      StepShape(p, i, st, caches);
      StepAtIndex(p, i, st, caches);
      assert HealthyLog(mode, step.events);
      if !step.halted {
        LoopSavesCheckpoints(p, i + 1, step.st, step.caches);
      }
    }
  }

  lemma FreshIsResumable(p: Process)
    ensures CompletedUpTo(p.command.options.mode, NewState(p), 0)
    ensures ValidTransition(p.command.options.mode, NewState(p))
  {
    assert Before(p.command.options.mode, 0) == {};
    assert CompletedUpTo(p.command.options.mode, NewState(p), 0);
  }
}
