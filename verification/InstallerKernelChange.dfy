/**
 Repeating one command while the machine changes its kernel: when the inputs of HOST_PLAN are
 found to have changed, over any history, and a machine on which they are.
 */
module InstallerKernelChange {
  import opened Wrappers
  import opened InstallerModel
  import opened InstallerStages
  import opened InstallerRun
  import opened InstallerCheckpoint
  import opened InstallerHistory
  import opened InstallerResume

  /**
   With HOST_PLAN recorded on `planned`, an iteration at HOST_PLAN that finds the kernel passed as
   `running` goes on exactly when the two are the same.
   */
  lemma OtherKernelIsRefused(p: Process, st: InstallState, caches: Caches, planned: string, running: string)
    requires p.command.options.mode == Full && HostPlan in st.completed
    requires st.completed[HostPlan].inputs == TuningInputs(p.command, p.facts, planned, st)
    requires st.kernel.verification.status == Some(Pass)
    requires st.kernel.verification.kernel == Some(running)
    ensures StageStep(p, 7, st, caches) ==
              if planned == running then Step([], st, caches, false)
              else Step([InputChanged(HostPlan)], st, caches, true)
  {
    hide GuardStep, FreshStep;
    PositionOfOrder(Full, 7);
    var inputs := InputsOf(p.command, p.facts, HostPlan, st);
    assert inputs == Some(TuningInputs(p.command, p.facts, running, st));
  }

  /** A guard that passes lets the loop go on with the kernel it saw. */
  lemma GuardPasses(p: Process, st: InstallState, caches: Caches)
    requires PassedKernel(p).Some? && st.targetUser.Some?
    ensures var step := GuardStep(p, st, caches, KernelVerify);
            && !step.halted
            && step.st.kernel.verification.status == Some(Pass)
            && step.st.kernel.verification.kernel == PassedKernel(p)
  {
    hide MergeReports;
  }

  /** What is complete up to the kernel guard is passed over, and the guard is run again. */
  lemma PassesOver(p: Process, i: nat, st: InstallState, caches: Caches, kernel: string)
    requires p.command.options.mode == Full && i <= 6 && FULL_STAGE_ORDER[i] in st.completed
    requires Stable(p.command, p.facts, kernel, st)
    ensures StageStep(p, i, st, caches)
         == if i == 6 then GuardStep(p, st, caches, KernelVerify) else Step([], st, caches, false)
  {
    hide GuardStep, FreshStep, InputsOf;
    PositionOfOrder(Full, i);
    assert Recomputes(p.command, p.facts, kernel, FULL_STAGE_ORDER[i], st);
  }

  /** HOST_PLAN is refused and nothing else, and everything saved on the way keeps its record. */
  predicate RefusedLog(command: Command, facts: Facts, planned: string, log: seq<Event>) {
    && (exists k | 0 <= k < |log| :: log[k].InputChanged?)
    && (forall k | 0 <= k < |log| && log[k].InputChanged? :: log[k].changed == HostPlan)
    && (forall k | 0 <= k < |log| && log[k].Saved? :: KeepsPlan(command, facts, planned, log[k].saved))
  }

  predicate KeepsPlan(command: Command, facts: Facts, planned: string, st: InstallState) {
    Stable(command, facts, planned, st) && HostPlan in st.completed
  }

  lemma StepKeepsHostPlan(p: Process, i: nat, st: InstallState, caches: Caches)
    requires i < |StageOrder(p.command.options.mode)| && HostPlan in st.completed
    ensures HostPlan in StageStep(p, i, st, caches).st.completed
  {
    hide StageStep, InputsOf;
    StepShape(p, i, st, caches);
  }

  lemma CompleteBefore(i: nat, st: InstallState)
    requires AtIndex(Full, i, st) && HostPlan in st.completed && i <= 7
    ensures FULL_STAGE_ORDER[i] in st.completed
    ensures KernelPlan in st.completed
  {
    hide Before;
    var n: nat :| i <= n <= |FULL_STAGE_ORDER| && CompletedUpTo(Full, st, n);
    PositionOfOrder(Full, i);
    InBefore(Full, n, HostPlan);
    InBefore(Full, n, FULL_STAGE_ORDER[i]);
    InBefore(Full, n, KernelPlan);
  }

  /** On another kernel the loop comes to HOST_PLAN and is refused there. */
  lemma {:induction false} LoopIsRefused(
    p: Process, i: nat, st: InstallState, caches: Caches, command: Command, facts: Facts, planned: string)
    requires Repeats(p, command, facts) && command.options.mode == Full
    requires PassedKernel(p).Some? && PassedKernel(p) != Some(planned)
    requires i <= 7 && AtIndex(Full, i, st) && KeepsPlan(command, facts, planned, st)
    requires i == 7 ==>
               st.kernel.verification.status == Some(Pass) && st.kernel.verification.kernel == PassedKernel(p)
    ensures RefusedLog(command, facts, planned, RunFrom(p, i, st, caches))
    decreases 7 - i
  {
    hide StageStep, Stable, AtIndex, GuardStep;
    var step := StageStep(p, i, st, caches);
    CompleteBefore(i, st);
    if i == 7 {
      PlanIsRecorded(command, facts, planned, st);
      OtherKernelIsRefused(p, st, caches, planned, PassedKernel(p).value);
      assert RunFrom(p, i, st, caches) == [InputChanged(HostPlan)];
      assert RunFrom(p, i, st, caches)[0].InputChanged?;
    } else {
      StepShape(p, i, st, caches);
      StepAtIndex(p, i, st, caches);
      StepStable(p, i, st, caches, command, facts, planned);
      StepFindsNoChange(p, i, st, caches, command, facts, planned);
      StepKeepsHostPlan(p, i, st, caches);
      PassesOver(p, i, st, caches, planned);
      PlanIsRecorded(command, facts, planned, st);
      GuardPasses(p, st, caches);
      LoopIsRefused(p, i + 1, step.st, step.caches, command, facts, planned);
      RefusedLater(command, facts, planned, step.events, RunFrom(p, i + 1, step.st, step.caches));
    }
  }

  lemma PlanIsRecorded(command: Command, facts: Facts, planned: string, st: InstallState)
    requires KeepsPlan(command, facts, planned, st)
    ensures st.completed[HostPlan].inputs == TuningInputs(command, facts, planned, st)
    ensures PlannedKernel(st) == Some(planned)
    ensures KernelPlan in st.completed ==> st.targetUser.Some?
  {
    assert Recomputes(command, facts, planned, HostPlan, st);
  }

  lemma RefusedLater(command: Command, facts: Facts, planned: string, events: seq<Event>, rest: seq<Event>)
    requires forall k | 0 <= k < |events| :: !events[k].InputChanged?
    requires forall k | 0 <= k < |events| && events[k].Saved? :: KeepsPlan(command, facts, planned, events[k].saved)
    requires RefusedLog(command, facts, planned, rest)
    ensures RefusedLog(command, facts, planned, events + rest)
  {
    hide KeepsPlan;
    var k :| 0 <= k < |rest| && rest[k].InputChanged?;
    assert (events + rest)[|events| + k] == rest[k];
  }

  // Histories of one command

  /** A state some repetitions of the command left: it recomputes for the kernel it was planned on. */
  ghost predicate Remembers(command: Command, facts: Facts, st: InstallState) {
    && (exists kernel :: Stable(command, facts, kernel, st))
    && (HostPlan in st.completed ==> !command.options.dryRun && ValidTransition(command.options.mode, st))
  }

  ghost predicate StoreRemembers(command: Command, facts: Facts, stored: Stored) {
    Standing(stored).Some? ==> Remembers(command, facts, Standing(stored).value)
  }

  /** HOST_PLAN is complete, and this process passes verification on a kernel it was not recorded for. */
  predicate OnOtherKernel(p: Process, stored: Stored) {
    && Standing(stored).Some?
    && HostPlan in Standing(stored).value.completed
    && PassedKernel(p).Some?
    && PassedKernel(p) != PlannedKernel(Standing(stored).value)
  }

  /** The plan in a saved state is the one the process found, or one it made on its own kernel. */
  predicate PlanFrom(p: Process, stored: Stored, st: InstallState) {
    HostPlan in st.completed ==>
      || (PassedKernel(p).Some? && PlannedKernel(st) == PassedKernel(p))
      || (Standing(stored).Some? && HostPlan in Standing(stored).value.completed
          && PlannedKernel(st) == PlannedKernel(Standing(stored).value))
  }

  /** What one repetition does to such a state file. */
  ghost predicate Repetition(p: Process, stored: Stored, log: seq<Event>) {
    && ((exists k | 0 <= k < |log| :: log[k].InputChanged?) <==> OnOtherKernel(p, stored))
    && (forall k | 0 <= k < |log| && log[k].InputChanged? :: log[k].changed == HostPlan)
    && (forall k | 0 <= k < |log| && log[k].Saved? ::
          Remembers(p.command, p.facts, log[k].saved) && PlanFrom(p, stored, log[k].saved))
  }

  lemma AnyKernelWillDo(command: Command, facts: Facts, kernel: string, other: string, st: InstallState)
    requires Stable(command, facts, kernel, st) && HostPlan !in st.completed
    ensures Stable(command, facts, other, st)
  {
    forall stage | stage in st.completed ensures Recomputes(command, facts, other, stage, st) {
      assert Recomputes(command, facts, kernel, stage, st);
    }
  }

  lemma StableTwice(command: Command, facts: Facts, st: InstallState)
    requires Stable(command, facts, "", st) && Stable(command, facts, "-", st)
    ensures HostPlan !in st.completed
  {
    assert TuningInputs(command, facts, "", st) != TuningInputs(command, facts, "-", st);
  }

  lemma DryRunsSaveNothing(p: Process, stored: Stored)
    requires p.command.options.dryRun
    ensures forall k | 0 <= k < |Run(p, stored)| :: !Run(p, stored)[k].Saved? && !Run(p, stored)[k].InputChanged?
  {
    hide Decode, NewState, ValidTransition, AdoptUpdate;
  }

  /** A process that passes on no kernel never completes HOST_PLAN. */
  lemma NoKernelNoPlan(p: Process, stored: Stored)
    requires PassedKernel(p).None?
    requires StoreStable(p.command, p.facts, "", stored) && StoreStable(p.command, p.facts, "-", stored)
    ensures forall k | 0 <= k < |Run(p, stored)| && Run(p, stored)[k].Saved? ::
              HostPlan !in Run(p, stored)[k].saved.completed
  {
    hide Run, Stable, Standing;
    var log := Run(p, stored);
    RunIsStable(p, stored, p.command, p.facts, "");
    RunIsStable(p, stored, p.command, p.facts, "-");
    forall k | 0 <= k < |log| && log[k].Saved? ensures HostPlan !in log[k].saved.completed {
      StableTwice(p.command, p.facts, log[k].saved);
    }
  }

  lemma SaveRemembers(p: Process, st: InstallState, kernel: string)
    requires Stable(p.command, p.facts, kernel, st) && ValidTransition(p.command.options.mode, st)
    requires !p.command.options.dryRun
    ensures Remembers(p.command, p.facts, st)
    ensures HostPlan in st.completed ==> PlannedKernel(st) == Some(kernel)
  {
    hide Stable;
    if HostPlan in st.completed {
      PlanIsRecorded(p.command, p.facts, kernel, st);
    }
  }

  /** Without a plan, or with one for its own kernel, a repetition finds nothing changed. */
  lemma OwnKernelResumes(p: Process, stored: Stored, kernel: string)
    requires SameWorld(p, p.command, p.facts, kernel) && StoreStable(p.command, p.facts, kernel, stored)
    requires !OnOtherKernel(p, stored) && !p.command.options.dryRun
    requires (Standing(stored).Some? && HostPlan in Standing(stored).value.completed)
             || PassedKernel(p) == Some(kernel)
    ensures Repetition(p, stored, Run(p, stored))
  {
    hide Run, Standing, Stable, ValidTransition, Remembers, OnOtherKernel;
    var log := Run(p, stored);
    RunIsStable(p, stored, p.command, p.facts, kernel);
    SavedStatesAreResumable(p, stored);
    forall k | 0 <= k < |log| && log[k].Saved?
      ensures Remembers(p.command, p.facts, log[k].saved) && PlanFrom(p, stored, log[k].saved)
    {
      assert Healthy(p.command.options.mode, log[k]);
      SaveRemembers(p, log[k].saved, kernel);
      if Standing(stored).Some? && HostPlan in Standing(stored).value.completed {
        PlanIsRecorded(p.command, p.facts, kernel, Standing(stored).value);
      }
    }
  }

  /** With a plan and on another kernel, it is refused at HOST_PLAN. */
  lemma RunIsRefused(p: Process, stored: Stored, planned: string)
    requires Standing(stored).Some? && KeepsPlan(p.command, p.facts, planned, Standing(stored).value)
    requires !p.command.options.dryRun && ValidTransition(p.command.options.mode, Standing(stored).value)
    requires PassedKernel(p).Some? && PassedKernel(p) != Some(planned)
    ensures p.command.options.mode == Full
    ensures RefusedLog(p.command, p.facts, planned, Run(p, stored))
  {
    hide Begin, RunFrom, Standing, ValidTransition, Stable, AdoptUpdate;
    var st := Standing(stored).value;
    PlanIsFull(p.command.options.mode, st);
    BeginShape(p, stored);
    AdoptionIsStable(p, p.command, p.facts, planned, st);
    AdoptionKeepsPlace(p, st);
    BeginResumes(p, stored);
    var start := Begin(p, stored);
    ValidAtStart(Full, start.st.value);
    LoopIsRefused(p, 0, start.st.value, NO_CACHES, p.command, p.facts, planned);
    RefusedLater(p.command, p.facts, planned, start.events, RunFrom(p, 0, start.st.value, NO_CACHES));
  }

  lemma OtherKernelStops(p: Process, stored: Stored, planned: string)
    requires StoreStable(p.command, p.facts, planned, stored) && StoreRemembers(p.command, p.facts, stored)
    requires OnOtherKernel(p, stored)
    ensures Repetition(p, stored, Run(p, stored))
  {
    hide Run, Standing, ValidTransition, Stable, Remembers;
    var st := Standing(stored).value;
    RemembersValid(p.command, p.facts, st);
    PlanIsRecorded(p.command, p.facts, planned, st);
    RunIsRefused(p, stored, planned);
    var log := Run(p, stored);
    SavedStatesAreResumable(p, stored);
    forall k | 0 <= k < |log| && log[k].Saved?
      ensures Remembers(p.command, p.facts, log[k].saved) && PlanFrom(p, stored, log[k].saved)
    {
      assert Healthy(Full, log[k]) && KeepsPlan(p.command, p.facts, planned, log[k].saved);
      SaveRemembers(p, log[k].saved, planned);
    }
  }

  lemma RemembersValid(command: Command, facts: Facts, st: InstallState)
    requires Remembers(command, facts, st) && HostPlan in st.completed
    ensures !command.options.dryRun && ValidTransition(command.options.mode, st)
  {
    hide Stable, ValidTransition;
  }

  /** HOST_PLAN is a stage of full installations only. */
  lemma PlanIsFull(mode: Mode, st: InstallState)
    requires ValidTransition(mode, st)
    ensures HostPlan in st.completed ==> mode == Full
  {
    hide Before;
    var n: nat :| n <= |StageOrder(mode)| && CompletedUpTo(mode, st, n);
    InBefore(mode, n, HostPlan);
  }

  lemma AdoptionKeepsPlace(p: Process, st: InstallState)
    ensures var st' := AdoptUpdate(p, st);
            && st'.completed.Keys == st.completed.Keys
            && (forall mode :: ValidTransition(mode, st) ==> ValidTransition(mode, st'))
  {
    hide InputsOf, CanAdoptUpdate;
    var st' := AdoptUpdate(p, st);
    forall mode | ValidTransition(mode, st) ensures ValidTransition(mode, st') {
      var n: nat :| n <= |StageOrder(mode)| && CompletedUpTo(mode, st, n);
      assert CompletedUpTo(mode, st', n);
    }
  }

  lemma BeginResumes(p: Process, stored: Stored)
    requires Standing(stored).Some? && !p.command.options.dryRun
    requires ValidTransition(p.command.options.mode, AdoptUpdate(p, Standing(stored).value))
    ensures Begin(p, stored).st == Some(AdoptUpdate(p, Standing(stored).value))
    ensures forall k | 0 <= k < |Begin(p, stored).events| :: !Begin(p, stored).events[k].InputChanged?
  {
    hide AdoptUpdate, Decode, ValidTransition;
  }

  /** One repetition of the command, on any kernel. */
  lemma RunRepeats(p: Process, stored: Stored)
    requires StoreRemembers(p.command, p.facts, stored)
    ensures Repetition(p, stored, Run(p, stored))
  {
    hide Run, Standing, Stable, ValidTransition;
    if p.command.options.dryRun {
      DryRunsSaveNothing(p, stored);
    } else if Standing(stored).Some? && HostPlan in Standing(stored).value.completed {
      var st := Standing(stored).value;
      var planned :| Stable(p.command, p.facts, planned, st);
      PlanIsRecorded(p.command, p.facts, planned, st);
      if OnOtherKernel(p, stored) {
        OtherKernelStops(p, stored, planned);
      } else {
        OwnKernelResumes(p, stored, planned);
      }
    } else {
      forall kernel ensures StoreStable(p.command, p.facts, kernel, stored) {
        if Standing(stored).Some? {
          var some :| Stable(p.command, p.facts, some, Standing(stored).value);
          AnyKernelWillDo(p.command, p.facts, some, kernel, Standing(stored).value);
        }
      }
      if PassedKernel(p).Some? {
        OwnKernelResumes(p, stored, PassedKernel(p).value);
      } else {
        UnpassedResumes(p, stored);
      }
    }
  }

  lemma UnpassedResumes(p: Process, stored: Stored)
    requires PassedKernel(p).None? && !p.command.options.dryRun
    requires forall kernel :: StoreStable(p.command, p.facts, kernel, stored)
    ensures Repetition(p, stored, Run(p, stored))
  {
    hide Run, Standing, Stable, ValidTransition, Remembers, StoreStable;
    var log := Run(p, stored);
    NoKernelNoPlan(p, stored);
    RunIsStable(p, stored, p.command, p.facts, "");
    SavedStatesAreResumable(p, stored);
    forall k | 0 <= k < |log| && log[k].Saved? ensures Remembers(p.command, p.facts, log[k].saved) {
      assert Healthy(p.command.options.mode, log[k]);
      SaveRemembers(p, log[k].saved, "");
    }
  }

  /** The kernel a plan was recorded for is one some life passed on. */
  predicate PlannedInLife(lives: seq<Life>, st: InstallState) {
    HostPlan in st.completed ==>
      exists k | 0 <= k < |lives| ::
        PassedKernel(lives[k].process).Some? && PassedKernel(lives[k].process) == PlannedKernel(st)
  }

  ghost predicate StorePlannedInLife(lives: seq<Life>, stored: Stored) {
    Standing(stored).Some? ==> PlannedInLife(lives, Standing(stored).value)
  }

  lemma PlannedEarlier(lives: seq<Life>, life: Life, st: InstallState)
    requires PlannedInLife(lives, st)
    ensures PlannedInLife(lives + [life], st)
  {
    if HostPlan in st.completed {
      var k :| 0 <= k < |lives|
        && PassedKernel(lives[k].process).Some? && PassedKernel(lives[k].process) == PlannedKernel(st);
      assert (lives + [life])[k] == lives[k];
    }
  }

  lemma PlannedBySave(lives: seq<Life>, life: Life, stored: Stored, st: InstallState)
    requires StorePlannedInLife(lives, stored) && PlanFrom(life.process, stored, st)
    ensures PlannedInLife(lives + [life], st)
  {
    hide Standing;
    if HostPlan in st.completed {
      if PassedKernel(life.process).Some? && PlannedKernel(st) == PassedKernel(life.process) {
        assert (lives + [life])[|lives|] == life;
      } else {
        PlannedEarlier(lives, life, Standing(stored).value);
      }
    }
  }

  lemma LifeRepeats(lives: seq<Life>, life: Life, stored: Stored)
    requires StoreRemembers(life.process.command, life.process.facts, stored) && StorePlannedInLife(lives, stored)
    ensures StoreRemembers(life.process.command, life.process.facts, LeftBy(life, stored))
    ensures StorePlannedInLife(lives + [life], LeftBy(life, stored))
  {
    hide Standing, Remembers, Run, PlannedInLife, PlanFrom;
    RunRepeats(life.process, stored);
    var k := LeftByLife(life, stored);
    if k >= 0 {
      assert LogOf(life, stored)[k] == Run(life.process, stored)[k];
      PlannedBySave(lives, life, stored, LogOf(life, stored)[k].saved);
    } else if Standing(LeftBy(life, stored)).Some? {
      PlannedEarlier(lives, life, Standing(stored).value);
    }
  }

  lemma {:induction false} HistoryRemembers(initial: Stored, lives: seq<Life>, command: Command, facts: Facts)
    requires Outset(initial) && (initial.File? ==> initial.payload.core.mode == Full)
    requires forall k | 0 <= k < |lives| :: Repeats(lives[k].process, command, facts)
    ensures StoreRemembers(command, facts, StoredAfter(initial, lives))
    ensures StorePlannedInLife(lives, StoredAfter(initial, lives))
    decreases |lives|
  {
    hide Standing, LeftBy, StoreRemembers, StorePlannedInLife;
    if lives == [] {
      OutsetRemembers(initial, command, facts);
    } else {
      var earlier, last := lives[..|lives| - 1], lives[|lives| - 1];
      HistoryRemembers(initial, earlier, command, facts);
      LifeRepeats(earlier, last, StoredAfter(initial, earlier));
      assert earlier + [last] == lives;
    }
  }

  lemma OutsetRemembers(initial: Stored, command: Command, facts: Facts)
    requires Outset(initial) && (initial.File? ==> initial.payload.core.mode == Full)
    ensures StoreRemembers(command, facts, initial) && StorePlannedInLife([], initial)
  {
    hide Decode;
    if Standing(initial).Some? {
      MigrationForgets(initial.payload);
      assert Stable(command, facts, "", Standing(initial).value);
    }
  }

  /**
   Starting from nothing or from a full-mode record of an older schema, one command is repeated on
   the same files, any number of times, killed anywhere, each time on any kernel or on none. The
   next repetition finds a changed input exactly when HOST_PLAN is complete and it passes kernel
   verification on another kernel than HOST_PLAN was recorded for; the input is that of HOST_PLAN,
   and the recorded kernel is one an earlier repetition passed on.
   */
  lemma InputChangesIffOtherKernel(
    initial: Stored, lives: seq<Life>, again: Process, command: Command, facts: Facts)
    requires Outset(initial) && (initial.File? ==> initial.payload.core.mode == Full)
    requires forall k | 0 <= k < |lives| :: Repeats(lives[k].process, command, facts)
    requires Repeats(again, command, facts)
    ensures var stored := StoredAfter(initial, lives);
            var log := Run(again, stored);
            && ((exists k | 0 <= k < |log| :: log[k].InputChanged?) <==> OnOtherKernel(again, stored))
            && (forall k | 0 <= k < |log| && log[k].InputChanged? :: log[k].changed == HostPlan)
            && StorePlannedInLife(lives, stored)
  {
    hide Run, Standing, Remembers, PlanFrom, OnOtherKernel, StorePlannedInLife, StoreRemembers;
    HistoryRemembers(initial, lives, command, facts);
    RunRepeats(again, StoredAfter(initial, lives));
  }

  /** So a machine whose verified kernel never changes is always resumed. */
  lemma SameCommandAlwaysResumes(
    initial: Stored, lives: seq<Life>, again: Process, command: Command, facts: Facts, kernel: string)
    requires Outset(initial) && (initial.File? ==> initial.payload.core.mode == Full)
    requires forall k | 0 <= k < |lives| :: SameWorld(lives[k].process, command, facts, kernel)
    requires SameWorld(again, command, facts, kernel)
    ensures var log := Run(again, StoredAfter(initial, lives));
            forall k | 0 <= k < |log| :: !log[k].InputChanged?
  {
    hide Run, Standing, StoredAfter;
    InputChangesIffOtherKernel(initial, lives, again, command, facts);
  }

  // A machine on which the kernel changes

  const NO_FACTS := Facts(Missing, None, Missing, stage => "")

  function EasyPlan(phase: Phase): HostPlanResult {
    HostPlanResult(Plan(phase, true, "user", [], false), "adapter", "", false, false)
  }

  /** An unattended full installation that accepts both plans. */
  const UNATTENDED := Command(
    Options(
      Full, true, false, "", "", None, Some("user"), Some(EasyPlan(KernelPhase).Digest()),
      Some(EasyPlan(TuningPhase).Digest()), false, ""),
    Identity(Version("", None), "", ""))

  /** A process in which everything succeeds, on this kernel. */
  function Easy(kernel: string): Process {
    Process(
      UNATTENDED, NO_FACTS,
      Oracle(
        phase => Returned(EasyPlan(phase)), stage => Returned(Report(Pass, Some(kernel), [])),
        stage => Returned(StageResult([], Passed)), Raised, Raised, phase => Raised, Raised, stage => Enough),
      "", true, "user", "")
  }

  predicate EasyFields(i: nat, st: InstallState) {
    && st.targetUser == Some("user")
    && (i > 2 ==>
          st.kernel.planDigest == Some(EasyPlan(KernelPhase).Digest()) && st.hostAdapterId == Some("adapter"))
    && (i > 4 ==> st.kernel.rebootBootId.None?)
  }

  predicate EasyAt(kernel: string, i: nat, st: InstallState, caches: Caches) {
    && CompletedUpTo(Full, st, i)
    && EasyFields(i, st)
    && (caches.kernelPlan.Some? ==> caches.kernelPlan == Some(EasyPlan(KernelPhase)))
  }

  function EasyOutput(kernel: string, stage: Stage): Output {
    match stage
    case HostPreflight => ReportOutput(Report(Pass, Some(kernel), []))
    case KernelPlan => PlanOutput(EasyPlan(KernelPhase))
    case KernelConfirm => ConfirmOutput(true, false)
    case KernelVerify => ReportOutput(Report(Pass, Some(kernel), []))
    case HostPlan => PlanOutput(EasyPlan(TuningPhase))
    case _ => PlainOutput(StageResult([], Passed))
  }

  lemma EasyDispatches(kernel: string, i: nat, st: InstallState, caches: Caches)
    requires i < 8 && EasyAt(kernel, i, st, caches)
    ensures var d := Dispatch(Easy(kernel), st, caches, FULL_STAGE_ORDER[i]);
            && d.output == Returned(EasyOutput(kernel, FULL_STAGE_ORDER[i]))
            && (d.caches.kernelPlan.Some? ==> d.caches.kernelPlan == Some(EasyPlan(KernelPhase)))
    ensures DiskCheck(Easy(kernel), st, caches, FULL_STAGE_ORDER[i]) == (caches, true)
    ensures InputsOf(UNATTENDED, NO_FACTS, FULL_STAGE_ORDER[i], st).Some?
  {
    hide Before;
  }

  lemma EasyApplies(kernel: string, i: nat, st: InstallState, caches: Caches, caches': Caches)
    requires i < 8 && EasyAt(kernel, i, st, caches)
    requires caches'.kernelPlan.Some? ==> caches'.kernelPlan == Some(EasyPlan(KernelPhase))
    ensures var stage := FULL_STAGE_ORDER[i];
            var applied := ApplyOutput(Easy(kernel), st, caches', stage, EasyOutput(kernel, stage));
            && applied.Some?
            && EasyFields(i + 1, applied.value)
            && ResultOf(stage, EasyOutput(kernel, stage)) == Some(StageResult([], Passed))
  {
    hide Before;
  }

  /** Each stage up to HOST_PLAN passes and is saved. */
  lemma EasyGoesOn(kernel: string, i: nat, st: InstallState, caches: Caches)
    requires i < 8 && EasyAt(kernel, i, st, caches)
    ensures var step := StageStep(Easy(kernel), i, st, caches);
            && !step.halted
            && EasyAt(kernel, i + 1, step.st, step.caches)
            && step.events != [] && step.events[|step.events| - 1] == Saved(step.st)
  {
    hide MergeReports, Before, Dispatch, ApplyOutput, ResultOf, InputsOf, DiskCheck, Completes, EasyOutput;
    var p := Easy(kernel);
    var step := StageStep(p, i, st, caches);
    InBefore(Full, i, FULL_STAGE_ORDER[i]);
    PositionOfOrder(Full, i);
    EasyDispatches(kernel, i, st, caches);
    EasyApplies(kernel, i, st, caches, Dispatch(p, st, caches, FULL_STAGE_ORDER[i]).caches);
    StepShape(p, i, st, caches);
    CompletesNext(p, i, st, step.st);
  }

  lemma {:induction false} EasyReaches(kernel: string, i: nat, st: InstallState, caches: Caches) returns (k: nat)
    requires i < 8 && EasyAt(kernel, i, st, caches)
    ensures var log := RunFrom(Easy(kernel), i, st, caches);
            k < |log| && log[k].Saved? && HostPlan in log[k].saved.completed
    decreases 8 - i
  {
    hide StageStep, EasyAt;
    var step := StageStep(Easy(kernel), i, st, caches);
    EasyGoesOn(kernel, i, st, caches);
    if i == 7 {
      k := |step.events| - 1;
      EasyPlans(kernel, step.st, step.caches);
    } else {
      k := EasyReaches(kernel, i + 1, step.st, step.caches);
      k := k + |step.events|;
    }
  }

  lemma EasyPlans(kernel: string, st: InstallState, caches: Caches)
    requires EasyAt(kernel, 8, st, caches)
    ensures HostPlan in st.completed
  {
    InBefore(Full, 8, HostPlan);
  }

  lemma EasyStarts(kernel: string)
    ensures Begin(Easy(kernel), Absent).st == Some(NewState(Easy(kernel)))
    ensures EasyAt(kernel, 0, NewState(Easy(kernel)), NO_CACHES)
  {
    FreshIsResumable(Easy(kernel));
  }

  /** A process killed as soon as it saved leaves what it saved. */
  lemma KilledAtSave(p: Process, k: nat)
    requires k < |Run(p, Absent)| && Run(p, Absent)[k].Saved?
    ensures Standing(StoredAfter(Absent, [Life(p, k + 1)])) == Some(Run(p, Absent)[k].saved)
  {
    hide Run, Decode, Encode;
    var life := Life(p, k + 1);
    var log := LogOf(life, Absent);
    assert log[|log| - 1] == Run(p, Absent)[k];
    SavedStateReadsBack(Run(p, Absent)[k].saved);
    assert [life][..0] == [];
  }

  /**
   The refusal does happen: for any two kernels there is a command, a machine and a moment to stop
   the first process, so that the same command on the other kernel finds the inputs changed.
   */
  lemma RefusalIsReachable(planned: string, running: string) returns (life: Life, again: Process)
    requires planned != running
    ensures Repeats(again, life.process.command, life.process.facts)
    ensures PassedKernel(life.process) == Some(planned) && PassedKernel(again) == Some(running)
    ensures var stored := StoredAfter(Absent, [life]);
            && OnOtherKernel(again, stored)
            && exists k | 0 <= k < |Run(again, stored)| :: Run(again, stored)[k] == InputChanged(HostPlan)
  {
    hide Run, RunFrom, Begin, Standing, StoredAfter, NewState, EasyAt;
    var first := Easy(planned);
    again := Easy(running);
    EasyStarts(planned);
    var k := EasyReaches(planned, 0, NewState(first), NO_CACHES);
    k := k + |Begin(first, Absent).events|;
    EasyRuns(first, k);
    life := Life(first, k + 1);
    KilledAtSave(first, k);
    var stored := StoredAfter(Absent, [life]);
    InputChangesIffOtherKernel(Absent, [life], again, UNATTENDED, NO_FACTS);
    var m :| 0 <= m < |Run(again, stored)| && Run(again, stored)[m].InputChanged?;
  }

  lemma EasyRuns(p: Process, k: nat)
    requires Begin(p, Absent).st.Some?
    requires var start := Begin(p, Absent);
             |start.events| <= k < |start.events| + |RunFrom(p, 0, start.st.value, NO_CACHES)|
    ensures k < |Run(p, Absent)|
    ensures Run(p, Absent)[k]
         == RunFrom(p, 0, Begin(p, Absent).st.value, NO_CACHES)[k - |Begin(p, Absent).events|]
  {
    hide Begin, RunFrom;
  }
}
