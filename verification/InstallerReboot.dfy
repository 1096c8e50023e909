/**
 The reboot: after a kernel plan that needs one is applied, kernel verification never
 executes under the boot it was applied in.
 */
module InstallerReboot {
  import opened Wrappers
  import opened InstallerModel
  import opened InstallerStages
  import opened InstallerRun
  import opened InstallerCheckpoint
  import opened InstallerHistory

  /** A boot identifier is drawn once: a machine that left a boot never returns to it. */
  predicate NonReturning(boots: seq<BootId>) {
    forall i, j, k | 0 <= i < j < k < |boots| && boots[i] == boots[k] :: boots[j] == boots[i]
  }

  predicate LeftBoot(boots: seq<BootId>, boot: BootId) {
    exists i, j | 0 <= i < j < |boots| :: boots[i] == boot && boots[j] != boot
  }

  /** The state records a boot exactly if the kernel plan it names needs a reboot. */
  predicate RebootKnown(st: InstallState) {
    var digest := st.kernel.planDigest;
    && digest.Some? && digest.value.PlanDigest?
    && (digest.value.plan.rebootRequired <==> st.kernel.rebootBootId.Some?)
  }

  /** The recorded boot was really seen, and was left once the reboot stage is complete. */
  predicate BootsAgree(st: InstallState, boots: seq<BootId>) {
    st.mode == Full && KernelApply in st.completed ==>
      && RebootKnown(st)
      && (st.kernel.rebootBootId.Some? ==>
            && st.kernel.rebootBootId.value in boots
            && (KernelRebootPending in st.completed ==> LeftBoot(boots, st.kernel.rebootBootId.value)))
  }

  /** Kernel verification runs under another boot than the one recorded if one had to be. */
  predicate VerifiesRebooted(boot: BootId, e: Event) {
    e.Dispatched? && e.stage == KernelVerify ==>
      RebootKnown(e.state) && e.state.kernel.rebootBootId != Some(boot)
  }

  function BootsOf(lives: seq<Life>): (boots: seq<BootId>)
    ensures |boots| == |lives|
    decreases |lives|
  {
    if lives == [] then []
    else BootsOf(lives[..|lives| - 1]) + [lives[|lives| - 1].process.bootId]
  }

  lemma AgreeMore(st: InstallState, boots: seq<BootId>, boot: BootId)
    requires BootsAgree(st, boots)
    ensures BootsAgree(st, boots + [boot])
  {
    var more := boots + [boot];
    if st.mode == Full && KernelApply in st.completed && st.kernel.rebootBootId.Some? {
      var b := st.kernel.rebootBootId.value;
      var i :| 0 <= i < |boots| && boots[i] == b;
      assert more[i] == b;
      if KernelRebootPending in st.completed {
        var i', j :| 0 <= i' < j < |boots| && boots[i'] == b && boots[j] != b;
        assert more[i'] == b && more[j] != b;
      }
    }
  }

  lemma LeftMeansGone(boots: seq<BootId>, boot: BootId)
    requires NonReturning(boots) && boots != [] && LeftBoot(boots, boot)
    ensures boots[|boots| - 1] != boot
  {
    var i, j :| 0 <= i < j < |boots| && boots[i] == boot && boots[j] != boot;
    assert j < |boots| - 1 ==> boots[i] != boots[|boots| - 1];
  }

  lemma RebootIdStands(p: Process, st: InstallState, caches: Caches, stage: Stage, output: Output)
    ensures ApplyOutput(p, st, caches, stage, output).Some? ==>
              var st' := ApplyOutput(p, st, caches, stage, output).value;
              && (stage != KernelPlan ==> st'.kernel.planDigest == st.kernel.planDigest)
              && (stage != KernelApply ==> st'.kernel.rebootBootId == st.kernel.rebootBootId)
              && (stage == KernelApply ==> RebootKnown(st') && st'.kernel.rebootBootId in {None, Some(p.bootId)})
  {
  }

  /** The reboot stage completes only under another boot than the recorded one. */
  lemma RebootWaits(p: Process, st: InstallState, caches: Caches)
    requires p.command.options.mode == Full
    requires Completes(p, 5, st, StageStep(p, 5, st, caches).st)
    ensures st.kernel.rebootBootId != Some(p.bootId)
  {
    hide InputsOf, MergeReports;
  }

  lemma FreshReboot(i: nat, st: InstallState)
    requires i <= |FULL_STAGE_ORDER| && CompletedUpTo(Full, st, i)
    ensures KernelApply in st.completed <==> i > 4
    ensures KernelRebootPending in st.completed <==> i > 5
  {
    hide Before;
    InBefore(Full, i, KernelApply);
    InBefore(Full, i, KernelRebootPending);
  }

  /** Only the kernel stage records a boot: the present one, if the plan needs a reboot. */
  lemma StepRecordsBoot(p: Process, i: nat, st: InstallState, caches: Caches)
    requires p.command.options.mode == Full && i < |FULL_STAGE_ORDER|
    ensures var st' := StageStep(p, i, st, caches).st;
            && (i != 2 ==> st'.kernel.planDigest == st.kernel.planDigest)
            && (i != 4 ==> st'.kernel.rebootBootId == st.kernel.rebootBootId)
            && (i == 4 && Completes(p, i, st, st') ==>
                  RebootKnown(st') && st'.kernel.rebootBootId in {None, Some(p.bootId)})
  {
    hide StageStep, ApplyOutput, InputsOf;
    PositionOfOrder(Full, i);
    var applied, caches', output := StepApplies(p, i, st, caches);
    RebootIdStands(p, st, caches', FULL_STAGE_ORDER[i], output);
  }

  lemma StepAgrees(p: Process, i: nat, st: InstallState, caches: Caches, boots: seq<BootId>)
    requires p.command.options.mode == Full && i < |FULL_STAGE_ORDER|
    requires boots != [] && boots[|boots| - 1] == p.bootId
    requires AtIndex(Full, i, st) && BootsAgree(st, boots)
    ensures BootsAgree(StageStep(p, i, st, caches).st, boots)
  {
    hide StageStep, InputsOf;
    var step := StageStep(p, i, st, caches);
    StepShape(p, i, st, caches);
    StepAtIndex(p, i, st, caches);
    PositionOfOrder(Full, i);
    StepRecordsBoot(p, i, st, caches);
    if Completes(p, i, st, step.st) {
      FreshReboot(i, st);
      if i == 5 && st.kernel.rebootBootId.Some? {
        RebootWaits(p, st, caches);
        JustLeft(boots, st.kernel.rebootBootId.value);
      }
    } else if (i == 2 || i == 4) && FULL_STAGE_ORDER[i] !in st.completed {
      FreshReboot(i, st);
    }
  }

  lemma JustLeft(boots: seq<BootId>, boot: BootId)
    requires boot in boots && boots[|boots| - 1] != boot
    ensures LeftBoot(boots, boot)
  {
    var i :| 0 <= i < |boots| && boots[i] == boot;
    assert i < |boots| - 1;
  }

  lemma StepVerifiesRebooted(p: Process, i: nat, st: InstallState, caches: Caches, boots: seq<BootId>)
    requires p.command.options.mode == Full && i < |FULL_STAGE_ORDER|
    requires boots != [] && boots[|boots| - 1] == p.bootId && NonReturning(boots)
    requires AtIndex(Full, i, st) && BootsAgree(st, boots)
    ensures var events := StageStep(p, i, st, caches).events;
            forall k | 0 <= k < |events| :: VerifiesRebooted(p.bootId, events[k])
  {
    hide StageStep, InputsOf, NonReturning, Before, LeftBoot;
    StepShape(p, i, st, caches);
    PositionOfOrder(Full, i);
    if i == 6 {
      var n: nat :| i <= n <= |FULL_STAGE_ORDER| && CompletedUpTo(Full, st, n);
      InBefore(Full, n, KernelApply);
      InBefore(Full, n, KernelRebootPending);
      if st.kernel.rebootBootId.Some? {
        LeftMeansGone(boots, st.kernel.rebootBootId.value);
      }
    }
  }

  /** What a process logs: verification only after the reboot, and saves that agree. */
  predicate RebootedLog(boots: seq<BootId>, boot: BootId, log: seq<Event>) {
    && (forall k | 0 <= k < |log| :: VerifiesRebooted(boot, log[k]))
    && (forall k | 0 <= k < |log| && log[k].Saved? :: BootsAgree(log[k].saved, boots))
  }

  lemma {:induction false} LoopReboots(p: Process, i: nat, st: InstallState, caches: Caches, boots: seq<BootId>)
    requires p.command.options.mode == Full && i <= |FULL_STAGE_ORDER|
    requires boots != [] && boots[|boots| - 1] == p.bootId && NonReturning(boots)
    requires AtIndex(Full, i, st) && BootsAgree(st, boots)
    ensures RebootedLog(boots, p.bootId, RunFrom(p, i, st, caches))
    decreases |FULL_STAGE_ORDER| - i
  {
    hide StageStep, NonReturning, AtIndex, BootsAgree, VerifiesRebooted;
    if i < |FULL_STAGE_ORDER| {
      var step := StageStep(p, i, st, caches);
      StepShape(p, i, st, caches);
      StepAgrees(p, i, st, caches, boots);
      StepVerifiesRebooted(p, i, st, caches, boots);
      StepAtIndex(p, i, st, caches);
      assert RebootedLog(boots, p.bootId, step.events);
      if !step.halted {
        LoopReboots(p, i + 1, step.st, step.caches, boots);
      }
    }
  }

  predicate StoreAgrees(stored: Stored, boots: seq<BootId>) {
    Standing(stored).Some? ==> BootsAgree(Standing(stored).value, boots)
  }

  lemma AdoptionAgrees(p: Process, st: InstallState, boots: seq<BootId>)
    requires BootsAgree(st, boots)
    ensures BootsAgree(AdoptUpdate(p, st), boots)
  {
    hide InputsOf;
  }

  lemma FreshAgrees(p: Process, boots: seq<BootId>)
    ensures BootsAgree(NewState(p), boots)
  {
  }

  lemma StartAgrees(p: Process, stored: Stored, boots: seq<BootId>)
    requires StoreAgrees(stored, boots)
    ensures Begin(p, stored).st.Some? ==> BootsAgree(Begin(p, stored).st.value, boots)
  {
    hide Begin, Standing, ValidTransition, AdoptUpdate, BootsAgree, NewState;
    BeginShape(p, stored);
    if Begin(p, stored).st.Some? {
      if Standing(stored).Some? {
        AdoptionAgrees(p, Standing(stored).value, boots);
      } else {
        FreshAgrees(p, boots);
      }
    }
  }

  lemma FullRunReboots(p: Process, stored: Stored, boots: seq<BootId>)
    requires p.command.options.mode == Full
    requires boots != [] && boots[|boots| - 1] == p.bootId && NonReturning(boots)
    requires StoreAgrees(stored, boots)
    ensures RebootedLog(boots, p.bootId, Run(p, stored))
  {
    hide Begin, RunFrom, Standing, ValidTransition, NonReturning, BootsAgree;
    BeginShape(p, stored);
    StartAgrees(p, stored, boots);
    var start := Begin(p, stored);
    if start.st.Some? {
      ValidAtStart(Full, start.st.value);
      LoopReboots(p, 0, start.st.value, NO_CACHES, boots);
    }
  }

  lemma RunReboots(p: Process, stored: Stored, boots: seq<BootId>)
    requires boots != [] && boots[|boots| - 1] == p.bootId && NonReturning(boots)
    requires StoreAgrees(stored, boots)
    ensures var log := Run(p, stored);
            forall k | 0 <= k < |log| && log[k].Saved? :: BootsAgree(log[k].saved, boots)
  {
    hide Run, NonReturning, BootsAgree, ValidTransition;
    if p.command.options.mode == Full {
      FullRunReboots(p, stored, boots);
    } else {
      SavedStatesAreResumable(p, stored);
      var log := Run(p, stored);
      forall k | 0 <= k < |log| && log[k].Saved? ensures BootsAgree(log[k].saved, boots) {
        assert Healthy(Container, log[k]);
        ContainerAgrees(log[k].saved, boots);
      }
    }
  }

  lemma ContainerAgrees(st: InstallState, boots: seq<BootId>)
    requires ValidTransition(Container, st)
    ensures BootsAgree(st, boots)
  {
  }

  lemma {:induction false} HistoryAgrees(initial: Stored, lives: seq<Life>)
    requires Outset(initial) && NonReturning(BootsOf(lives))
    ensures StoreAgrees(StoredAfter(initial, lives), BootsOf(lives))
    decreases |lives|
  {
    hide Standing, LogOf, LeftBy, BootsAgree, Run;
    var boots := BootsOf(lives);
    if lives == [] {
      OutsetAgrees(initial);
    } else {
      var earlier, last := lives[..|lives| - 1], lives[|lives| - 1];
      var stored := StoredAfter(initial, earlier);
      EarlierNonReturning(lives);
      HistoryAgrees(initial, earlier);
      if Standing(stored).Some? {
        AgreeMore(Standing(stored).value, BootsOf(earlier), last.process.bootId);
      }
      RunReboots(last.process, stored, boots);
      LifeAgrees(last, stored, boots);
    }
  }

  lemma EarlierNonReturning(lives: seq<Life>)
    requires lives != [] && NonReturning(BootsOf(lives))
    ensures NonReturning(BootsOf(lives[..|lives| - 1]))
  {
    var boots, earlier := BootsOf(lives), BootsOf(lives[..|lives| - 1]);
    forall i, j, k | 0 <= i < j < k < |earlier| && earlier[i] == earlier[k] ensures earlier[j] == earlier[i] {
      assert boots[i] == earlier[i] && boots[j] == earlier[j] && boots[k] == earlier[k];
    }
  }

  lemma LifeAgrees(life: Life, stored: Stored, boots: seq<BootId>)
    requires StoreAgrees(stored, boots)
    requires var log := Run(life.process, stored);
             forall k | 0 <= k < |log| && log[k].Saved? :: BootsAgree(log[k].saved, boots)
    ensures StoreAgrees(LeftBy(life, stored), boots)
  {
    hide Standing, BootsAgree, Run;
    var k := LeftByLife(life, stored);
    if k >= 0 {
      assert LogOf(life, stored)[k] == Run(life.process, stored)[k];
    }
  }

  lemma OutsetAgrees(initial: Stored)
    requires Outset(initial)
    ensures StoreAgrees(initial, [])
  {
    hide Decode;
    if Standing(initial).Some? && initial.payload.core.mode == Full {
      MigrationForgets(initial.payload);
    } else if Standing(initial).Some? {
      MigrationKeepsContainers(initial.payload);
    }
  }

  /**
   However many processes, crashes and boots lie in between, when a full installation dispatches
   kernel verification it has recorded a boot exactly if its kernel plan needs a reboot, and that
   is not the present one.
   */
  lemma VerificationFollowsTheReboot(initial: Stored, lives: seq<Life>)
    requires Outset(initial) && lives != [] && NonReturning(BootsOf(lives))
    requires lives[|lives| - 1].process.command.options.mode == Full
    ensures var last := lives[|lives| - 1];
            var log := LogOf(last, StoredAfter(initial, lives[..|lives| - 1]));
            forall k | 0 <= k < |log| && log[k].Dispatched? && log[k].stage == KernelVerify ::
              RebootKnown(log[k].state) && log[k].state.kernel.rebootBootId != Some(last.process.bootId)
  {
    hide Standing, LeftBy, BootsAgree, Run;
    var earlier, last := lives[..|lives| - 1], lives[|lives| - 1];
    var stored := StoredAfter(initial, earlier);
    EarlierNonReturning(lives);
    HistoryAgrees(initial, earlier);
    if Standing(stored).Some? {
      AgreeMore(Standing(stored).value, BootsOf(earlier), last.process.bootId);
    }
    FullRunReboots(last.process, stored, BootsOf(lives));
    var log := LogOf(last, stored);
    assert forall k | 0 <= k < |log| :: log[k] == Run(last.process, stored)[k];
  }
}
