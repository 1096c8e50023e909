/**
 The workflow object: one process that dispatches stages, fills its caches and rewrites the
 state file. Each method is proved against the function the theorems are about.
 */
module InstallerWorkflow {
  import opened Wrappers
  import opened InstallerModel
  import opened InstallerStages
  import opened InstallerCheckpoint
  import R = InstallerRun

  lemma {:induction false} AfterConcat(stored: R.Stored, log: seq<Event>, more: seq<Event>)
    ensures R.After(stored, log + more) == R.After(R.After(stored, log), more)
    decreases |more|
  {
    if more == [] {
      assert log + more == log;
    } else {
      assert (log + more)[..|log + more| - 1] == log + more[..|more| - 1];
      AfterConcat(stored, log, more[..|more| - 1]);
    }
  }

  class Workflow {
    const p: Process
    var kernelPlan: Option<HostPlanResult>
    var hostPlan: Option<HostPlanResult>
    var release: Option<Release>
    var stateFile: R.Stored
    var log: seq<Event>

    constructor (p: Process, stateFile: R.Stored)
      ensures this.p == p && this.stateFile == stateFile && log == [] && Cached() == NO_CACHES
    {
      this.p := p;
      this.stateFile := stateFile;
      kernelPlan, hostPlan, release, log := None, None, None, [];
    }

    function Cached(): Caches
      reads this
    {
      Caches(kernelPlan, hostPlan, release)
    }

    /** The object did exactly these events and holds what they saved. */
    twostate predicate Did(events: seq<Event>)
      reads this
    {
      log == old(log) + events && stateFile == R.After(old(stateFile), events)
    }

    method Note(e: Event)
      requires !e.Saved?
      modifies this`log
      ensures Did([e])
    {
      log := log + [e];
      assert R.After(stateFile, []) == stateFile;
    }

    method SaveState(st: InstallState)
      modifies this`log, this`stateFile
      ensures Did([Saved(st)])
    {
      stateFile := R.File(R.Encode(st));
      log := log + [Saved(st)];
    }

    method ReadKernelPlan(st: InstallState) returns (plan: Option<HostPlanResult>)
      modifies this`kernelPlan
      ensures plan == ResolvedKernelPlan(p, st, old(Cached()))
      ensures Cached() == CacheKernelPlan(p, st, old(Cached()))
    {
      if st.targetUser.None? || st.kernel.planDigest.None? {
        return None;
      }
      if kernelPlan.None? {
        match p.oracle.plan(KernelPhase)
        case Raised => return None;
        case Returned(read) => kernelPlan := Some(read);
      }
      if Some(kernelPlan.value.Digest()) != st.kernel.planDigest
        || Some(kernelPlan.value.adapterId) != st.hostAdapterId
        || kernelPlan.value.plan.phase != KernelPhase
      {
        return None;
      }
      return kernelPlan;
    }

    method ReadHostPlan(st: InstallState) returns (plan: Option<HostPlanResult>)
      modifies this`hostPlan
      ensures plan == ResolvedHostPlan(p, st, old(Cached()))
      ensures Cached() == CacheHostPlan(p, st, old(Cached()))
    {
      if st.targetUser.None? || st.hostPlanDigest.None? {
        return None;
      }
      if hostPlan.None? {
        match p.oracle.plan(TuningPhase)
        case Raised => return None;
        case Returned(read) => hostPlan := Some(read);
      }
      if Some(hostPlan.value.Digest()) != st.hostPlanDigest
        || Some(hostPlan.value.adapterId) != st.hostAdapterId
      {
        return None;
      }
      return hostPlan;
    }

    method ReadRelease(st: InstallState) returns (found: Option<Release>)
      modifies this`release
      ensures found == ResolvedRelease(p, st, old(Cached()))
      ensures Cached() == CacheRelease(p, old(Cached()))
    {
      if release.None? {
        release := p.facts.release;
      }
      if release.None?
        || st.releaseId != Some(release.value.releaseId)
        || st.sourceRevision != Some(release.value.sourceRevision)
      {
        return None;
      }
      return release;
    }

    method Confirm(phase: Phase, plan: Option<HostPlanResult>) returns (output: Reply<Output>)
      modifies this`log
      ensures var d := R.ConfirmPlan(p, phase, Cached(), plan);
              output == d.output && log == old(log) + d.events
    {
      if plan.None? {
        return Raised;
      }
      var found, options := plan.value, p.command.options;
      var docker := false;
      if options.nonInteractive {
        var accepted := if phase == KernelPhase then options.acceptedKernelPlan else options.acceptedHostPlan;
        if accepted != Some(found.Digest()) {
          return Returned(ConfirmOutput(false, false));
        }
        docker := phase == TuningPhase && options.acceptDockerGroup;
      } else {
        if p.oracle.confirm(phase).Raised? {
          return Raised;
        }
        if !p.oracle.confirm(phase).value {
          return Returned(ConfirmOutput(false, false));
        }
        if phase == TuningPhase && found.plan.targetUser != "root" {
          if p.oracle.dockerGroup.Raised? {
            return Raised;
          }
          docker := p.oracle.dockerGroup.value;
        }
      }
      log := log + [Accepted(phase, found.Digest(), found.adapterId, docker, p.command.installer)];
      output := Returned(ConfirmOutput(true, docker));
    }

    /** Calls an action that returns a stage result. */
    method CallAction(stage: Stage) returns (output: Reply<Output>)
      ensures output == R.Plain(p.oracle.plain(stage))
    {
      var reply := p.oracle.plain(stage);
      if reply.Raised? {
        return Raised;
      }
      output := Returned(PlainOutput(reply.value));
    }

    /** Calls an action that reports on the host. */
    method ReadReport(stage: Stage, st: InstallState) returns (output: Reply<Output>)
      modifies this`log
      ensures var d := R.Observe(p, st, Cached(), stage); output == d.output && log == old(log) + d.events
    {
      if st.targetUser.None? && stage != HostPreflight {
        return Raised;
      }
      var reply := p.oracle.report(stage);
      if reply.Raised? {
        return Raised;
      }
      log := log + [Verified(stage, reply.value)];
      output := Returned(ReportOutput(reply.value));
    }

    /** Asks for a reboot as long as the recorded boot goes on. */
    method AwaitReboot(st: InstallState) returns (output: Reply<Output>)
      ensures output == R.RebootPending(p, st)
    {
      var outcome := Passed;
      if st.kernel.rebootBootId.Some? {
        if !p.bootIdReadable {
          return Raised;
        }
        if p.bootId == st.kernel.rebootBootId.value {
          outcome := ActionRequired;
        }
      }
      output := Returned(PlainOutput(StageResult([], outcome)));
    }

    method ApplyHost(stage: Stage, phase: Phase, plan: Option<HostPlanResult>, docker: bool)
      returns (output: Reply<Output>)
      modifies this`log
      ensures var d := R.ApplyPlan(p, stage, phase, Cached(), plan, docker);
              output == d.output && log == old(log) + d.events
    {
      if plan.None? {
        return Raised;
      }
      log := log + [Applied(phase, plan.value, docker, p.command.installer)];
      output := CallAction(stage);
    }

    /** One call of the action behind a stage. */
    method Dispatch(stage: Stage, st: InstallState) returns (output: Reply<Output>)
      modifies this`log, this`kernelPlan, this`hostPlan, this`release
      ensures var d := R.Dispatch(p, st, old(Cached()), stage);
              output == d.output && Cached() == d.caches && log == old(log) + d.events
    {
      match stage
      case KernelPlan =>
        var plan := R.MakePlan(p, st, KernelPhase);
        if plan.None? {
          return Raised;
        }
        kernelPlan := plan;
        output := Returned(PlanOutput(plan.value));
      case KernelConfirm =>
        var plan := ReadKernelPlan(st);
        output := Confirm(KernelPhase, plan);
      case KernelApply =>
        var plan := ReadKernelPlan(st);
        output := ApplyHost(stage, KernelPhase, plan, false);
      case HostPlan =>
        var plan := R.MakePlan(p, st, TuningPhase);
        if plan.None? {
          return Raised;
        }
        hostPlan := plan;
        output := Returned(PlanOutput(plan.value));
      case HostConfirm =>
        var plan := ReadHostPlan(st);
        output := Confirm(TuningPhase, plan);
      case HostApply =>
        var plan := ReadHostPlan(st);
        output := ApplyHost(stage, TuningPhase, plan, st.dockerGroupAccepted);
      case ReleaseResolve =>
        match p.oracle.release {
          case Raised => return Raised;
          case Returned(read) =>
            release := Some(read);
            output := Returned(ReleaseOutput(read));
        }
      case ImagePullOrBuild =>
        var found := ReadRelease(st);
        if found.None? || p.oracle.images.Raised? {
          return Raised;
        }
        output := Returned(AcquiredOutput(p.oracle.images.value));
      case HostPreflight => output := ReadReport(stage, st);
      case KernelVerify => output := ReadReport(stage, st);
      case HostVerify => output := ReadReport(stage, st);
      case KernelRebootPending => output := AwaitReboot(st);
      case ImageVerify =>
        if st.torch.reference.None? {
          return Raised;
        }
        output := CallAction(stage);
      case Complete => output := Returned(PlainOutput(StageResult([], Passed)));
      case _ => output := CallAction(stage);
    }

    /** Applies an output and adds its reports; a blocked stage only applies a report. */
    method Record(stage: Stage, st: InstallState, output: Output, result: StageResult)
      returns (saved: Option<InstallState>)
      ensures saved == R.Recorded(p, st, Cached(), stage, output, result)
    {
      hide ApplyOutput, MergeReports;
      var next := st;
      if result.outcome != OutcomeBlocked || output.ReportOutput? {
        var applied := ApplyOutput(p, st, Cached(), stage, output);
        if applied.None? {
          return None;
        }
        next := applied.value;
      }
      saved := Some(WithReports(p, next, result));
    }

    method RerunCompletedGuard(st: InstallState, stage: Stage) returns (st': InstallState, halted: bool)
      modifies this
      ensures var step := R.GuardStep(p, st, old(Cached()), stage);
              Did(step.events) && st' == step.st && halted == step.halted && Cached() == step.caches
    {
      hide R.Dispatch, R.Recorded, ResultOf, Guards, R.After;
      ghost var file, before, caches := stateFile, log, Cached();
      st', halted := st, true;
      log := log + [Dispatched(stage, st)];
      var output := Dispatch(stage, st);
      ghost var d := R.Dispatch(p, st, caches, stage);
      ghost var events := [Dispatched(stage, st)] + d.events;
      NothingSaved(stage, st, caches, file);
      if output.Raised? {
        return;
      }
      var result := ResultOf(stage, output.value);
      var next: Option<InstallState> := None;
      if result.Some? {
        next := Record(stage, st, output.value, result.value);
      }
      AfterConcat(file, events, [Failed]);
      if next.None? {
        Note(Failed);
        return;
      }
      AfterConcat(file, events, [Saved(next.value)]);
      SaveState(next.value);
      st', halted := next.value, result.value.outcome == OutcomeBlocked;
    }

    lemma NothingSaved(stage: Stage, st: InstallState, caches: Caches, file: R.Stored)
      ensures var events := [Dispatched(stage, st)] + R.Dispatch(p, st, caches, stage).events;
              R.After(file, events) == file
    {
      hide R.Dispatch;
      DispatchEvents(p, st, caches, stage);
      QuietLogSavesNothing(file, [Dispatched(stage, st)] + R.Dispatch(p, st, caches, stage).events);
    }

    /** The loop over the stages, from whatever the object has cached. */
    method RunStages(state: InstallState)
      modifies this
      ensures Did(R.RunFrom(p, 0, state, old(Cached())))
    {
      hide R.StageStep, R.RunFrom, R.After, StageOrder;
      var st := state;
      NothingYet(stateFile);
      var order := StageOrder(p.command.options.mode);
      ghost var file, before := stateFile, log;
      ghost var whole := R.RunFrom(p, 0, state, Cached());
      ghost var done: seq<Event> := [];
      assert [] + whole == whole;
      for index := 0 to |order|
        invariant whole == done + R.RunFrom(p, index, st, Cached())
        invariant log == before + done && stateFile == R.After(file, done)
      {
        ghost var step := R.StageStep(p, index, st, Cached());
        RunsOn(p, index, st, Cached(), whole, done);
        var st', halted := VisitStage(index, st);
        AfterConcat(file, done, step.events);
        Regroup(before, done, step.events);
        done := done + step.events;
        st := st';
        if halted {
          assert done + [] == done;
          return;
        }
      }
      RunEnds(p, st, Cached(), done);
    }

    /** One iteration: skip, re-run, refuse, or execute and checkpoint a stage. */
    method VisitStage(index: nat, st: InstallState) returns (st': InstallState, halted: bool)
      requires index < |StageOrder(p.command.options.mode)|
      modifies this
      ensures var step := R.StageStep(p, index, st, old(Cached()));
              Did(step.events) && st' == step.st && halted == step.halted && Cached() == step.caches
    {
      hide R.GuardStep, R.FinishStage, R.Dispatch, InputsOf;
      var order := StageOrder(p.command.options.mode);
      var stage := order[index];
      var inputs := InputsOf(p.command, p.facts, stage, st);
      st', halted := st, true;
      assert R.After(stateFile, []) == stateFile;
      if stage in st.completed {
        if inputs.None? {
          Note(Failed);
        } else if InputDigest(inputs.value) != st.completed[stage] {
          Note(InputChanged(stage));
        } else if stage in Guards() {
          st', halted := RerunCompletedGuard(st, stage);
        } else {
          halted := false;
        }
      } else if st.currentStage != stage {
        Note(IllegalTransition);
      } else if inputs.None? {
        Note(Failed);
      } else {
        var enough := CheckDisk(stage, st);
        if !enough {
          Note(Failed);
        } else {
          st', halted := ExecuteStage(
            stage, if index + 1 < |order| then order[index + 1] else stage, st, inputs.value);
        }
      }
    }

    method CheckDisk(stage: Stage, st: InstallState) returns (enough: bool)
      modifies this`release
      ensures (Cached(), enough) == R.DiskCheck(p, st, old(Cached()), stage)
    {
      enough := true;
      if stage == ImagePullOrBuild {
        var found := ReadRelease(st);
        enough := found.Some? && p.oracle.disk(stage) == Enough;
      } else if stage == ProjectInit {
        enough := p.oracle.disk(stage) == Enough;
      }
    }

    method ExecuteStage(stage: Stage, next: Stage, st: InstallState, inputs: StageInputs)
      returns (st': InstallState, halted: bool)
      modifies this
      ensures var d := R.Dispatch(p, st, old(Cached()), stage);
              var events := [Dispatched(stage, st)] + d.events;
              var step := if d.output.Raised? then R.Step(events, st, d.caches, true)
                          else R.FinishStage(p, st, d.caches, stage, next, inputs, d.output.value, events);
              Did(step.events) && st' == step.st && halted == step.halted && Cached() == step.caches
    {
      hide R.Dispatch, R.FinishStage;
      ghost var file, caches := stateFile, Cached();
      log := log + [Dispatched(stage, st)];
      var output := Dispatch(stage, st);
      NothingSaved(stage, st, caches, file);
      if output.Raised? {
        return st, true;
      }
      ghost var events := [Dispatched(stage, st)] + R.Dispatch(p, st, caches, stage).events;
      FinishAfter(p, st, Cached(), stage, next, inputs, output.value, events);
      AfterConcat(file, events, R.FinishStage(p, st, Cached(), stage, next, inputs, output.value, []).events);
      st', halted := Finish(stage, next, st, inputs, output.value);
    }

    /** Saves a blocked, waiting or completed stage, or raises. */
    method Finish(stage: Stage, next: Stage, st: InstallState, inputs: StageInputs, output: Output)
      returns (st': InstallState, halted: bool)
      modifies this`log, this`stateFile
      ensures var step := R.FinishStage(p, st, Cached(), stage, next, inputs, output, []);
              Did(step.events) && st' == step.st && halted == step.halted && Cached() == step.caches
    {
      hide R.Settled, ResultOf, R.After;
      var result := ResultOf(stage, output);
      var saved: Option<InstallState> := None;
      if result.Some? {
        saved := Settle(stage, next, st, inputs, output, result.value);
      }
      assert forall e: Event {:trigger [e]} :: [] + [e] == [e];
      if saved.None? {
        Note(Failed);
        st', halted := st, true;
      } else {
        SaveState(saved.value);
        st', halted := saved.value, result.value.outcome != Passed;
      }
    }

    method Settle(
      stage: Stage, next: Stage, st: InstallState, inputs: StageInputs, output: Output, result: StageResult)
      returns (saved: Option<InstallState>)
      ensures saved == R.Settled(p, st, Cached(), stage, next, inputs, output, result)
    {
      hide R.Recorded, ApplyOutput, WithReports, Checkpoint;
      if result.outcome == OutcomeBlocked {
        saved := Record(stage, st, output, result);
        return;
      }
      if stage == KernelRebootPending && result.outcome == ActionRequired {
        return Some(WithReports(p, st, result));
      }
      var caches := Cached();
      var applied := ApplyOutput(p, st, caches, stage, output);
      if applied.None? {
        return None;
      }
      var st' := Checkpoint(p, applied.value, stage, inputs, next, result);
      assert R.Settled(p, st, caches, stage, next, inputs, output, result) == Some(st');
      return Some(st');
    }

    /** A whole process: load, migrate, adopt, validate and visit the stages. */
    method Run()
      requires log == [] && Cached() == NO_CACHES
      modifies this
      ensures Did(R.Run(p, old(stateFile)))
    {
      hide R.RunFrom, R.Decode, AdoptUpdate, NewState, ValidTransition;
      ghost var file := stateFile;
      var dryRun := p.command.options.dryRun;
      var st: InstallState;
      if stateFile.Absent? {
        st := NewState(p);
        Note(Restarted);
        if !dryRun {
          SaveState(st);
        }
      } else {
        var loaded := if stateFile.File? then R.Decode(stateFile.payload) else None;
        if loaded.None? {
          Note(Failed);
          return;
        }
        if R.Legacy(stateFile.payload) && stateFile.payload.core.mode == Full {
          Note(Restarted);
        }
        st := if dryRun then loaded.value else AdoptUpdate(p, loaded.value);
        if !ValidTransition(p.command.options.mode, st) {
          Note(Failed);
          assert R.Begin(p, file).events == log && R.Run(p, file) == log;
          return;
        }
        if st != loaded.value {
          SaveState(st);
        }
      }
      assert log == R.Begin(p, file).events && stateFile == R.After(file, log);
      if !dryRun {
        RunStages(st);
        AfterConcat(file, R.Begin(p, file).events, R.RunFrom(p, 0, st, NO_CACHES));
      }
    }
  }

  /** The log before a stage finishes is only a prefix. */
  lemma FinishAfter(
    p: Process, st: InstallState, caches: Caches, stage: Stage, next: Stage,
    inputs: StageInputs, output: Output, events: seq<Event>)
    ensures var tail := R.FinishStage(p, st, caches, stage, next, inputs, output, []);
            R.FinishStage(p, st, caches, stage, next, inputs, output, events)
              == tail.(events := events + tail.events)
  {
    hide R.Settled, ResultOf;
  }

  /** One iteration: either the loop is over, or the rest of it is what the next index does. */
  lemma RunsOn(p: Process, index: nat, st: InstallState, caches: Caches, whole: seq<Event>, done: seq<Event>)
    requires index < |StageOrder(p.command.options.mode)|
    requires whole == done + R.RunFrom(p, index, st, caches)
    ensures var step := R.StageStep(p, index, st, caches);
            whole == done + step.events + if step.halted then [] else R.RunFrom(p, index + 1, step.st, step.caches)
  {
    hide R.StageStep, StageOrder;
    var step := R.StageStep(p, index, st, caches);
    Regroup(done, step.events, if step.halted then [] else R.RunFrom(p, index + 1, step.st, step.caches));
  }

  lemma RunEnds(p: Process, st: InstallState, caches: Caches, done: seq<Event>)
    ensures done + R.RunFrom(p, |StageOrder(p.command.options.mode)|, st, caches) == done
  {
    hide R.StageStep, StageOrder;
  }

  lemma NothingYet(file: R.Stored)
    ensures R.After(file, []) == file
  {
  }

  lemma {:induction false} QuietLogSavesNothing(file: R.Stored, log: seq<Event>)
    requires forall k | 0 <= k < |log| :: !log[k].Saved?
    ensures R.After(file, log) == file
    decreases |log|
  {
    if log != [] {
      QuietLogSavesNothing(file, log[..|log| - 1]);
    }
  }
}
