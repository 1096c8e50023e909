/**
 From one process to many: where the state file comes from, and how facts about the log of
 a whole process survive a crash and the processes after it.
 */
module InstallerHistory {
  import opened Wrappers
  import opened InstallerModel
  import opened InstallerStages
  import opened InstallerRun
  import opened InstallerCheckpoint

  /** A state written by a process is read back unchanged by the next one. */
  lemma SavedStateReadsBack(st: InstallState)
    ensures Decode(Encode(st)) == Some(st) && !Legacy(Encode(st))
  {
  }

  /** The state the next process would load. */
  function Standing(stored: Stored): Option<InstallState> {
    if stored.File? then Decode(stored.payload) else None
  }

  /** A state file this installer never wrote: none, garbage, or a record of an older schema. */
  predicate Outset(stored: Stored) {
    stored.File? ==> Legacy(stored.payload)
  }

  /** The restart of the host audit forgets every stage and every approval. */
  lemma MigrationForgets(payload: Payload)
    requires Legacy(payload) && payload.core.mode == Full && Decode(payload).Some?
    ensures var st := Decode(payload).value;
            && st.mode == Full && st.currentStage == Bootstrap && st.completed == map[]
            && st.hostPlanDigest.None? && st.hostAdapterId.None? && !st.dockerGroupAccepted
            && st.kernel == NO_KERNEL && st.hostVerification == NOT_VERIFIED
            && CompletedUpTo(Full, st, 0)
  {
    assert Before(Full, 0) == {};
  }

  /** A container record keeps its progress and its images through the migration. */
  lemma MigrationKeepsContainers(payload: Payload)
    requires Legacy(payload) && payload.core.mode == Container && Decode(payload).Some?
    ensures var st := Decode(payload).value;
            && st.mode == Container && st.currentStage == payload.core.currentStage
            && st.completed == payload.core.completed
            && st.releaseId == payload.core.releaseId && st.base == payload.core.base
            && st.torch == payload.core.torch && st.reports == payload.core.reports
            && !st.displayManagerWasLoaded
  {
  }

  lemma {:induction false} LoopStarts(p: Process, i: nat, st: InstallState, caches: Caches)
    requires i <= |StageOrder(p.command.options.mode)|
    ensures forall k | 0 <= k < |RunFrom(p, i, st, caches)| :: !RunFrom(p, i, st, caches)[k].Restarted?
    decreases |StageOrder(p.command.options.mode)| - i
  {
    hide StageStep;
    if i < |StageOrder(p.command.options.mode)| {
      var step := StageStep(p, i, st, caches);
      StepShape(p, i, st, caches);
      if !step.halted {
        LoopStarts(p, i + 1, step.st, step.caches);
      }
    }
  }

  /** How a process begins: what it may log, and where the state of its stages comes from. */
  lemma BeginShape(p: Process, stored: Stored)
    ensures var start := Begin(p, stored);
            && (forall k | 0 <= k < |start.events| ::
                  || (start.events[k].Restarted? && k == 0)
                  || start.events[k].Failed?
                  || (start.events[k].Saved? && k == |start.events| - 1 && start.st == Some(start.events[k].saved)))
            && (start.st.Some? ==>
                  && ValidTransition(p.command.options.mode, start.st.value)
                  && (Standing(stored).None? ==> start.st.value == NewState(p))
                  && (Standing(stored).Some? ==> start.st.value == AdoptUpdate(p, Standing(stored).value)))
            && (start.events != [] && start.events[0].Restarted? ==>
                  Standing(stored).Some? ==> Standing(stored).value.completed == map[])
            && (Standing(stored).None? && start.st.Some? ==>
                  start.events == [Restarted, Saved(NewState(p))])
            && (Standing(stored).Some? && start.st.Some? && start.st != Standing(stored) ==>
                  start.events != [] && start.events[|start.events| - 1].Saved?)
  {
    hide AdoptUpdate, NewState, Decode, ValidTransition;
    if stored.File? && Legacy(stored.payload) && stored.payload.core.mode == Full && Decode(stored.payload).Some? {
      MigrationForgets(stored.payload);
    }
    FreshIsResumable(p);
  }

  /** A process restarts the installation at most once, first of all, and only when nothing is complete. */
  lemma RestartsFirst(p: Process, stored: Stored)
    ensures var log := Run(p, stored);
            && (forall k | 1 <= k < |log| :: !log[k].Restarted?)
            && (log != [] && log[0].Restarted? ==>
                  Standing(stored).Some? ==> Standing(stored).value.completed == map[])
  {
    hide Begin, RunFrom, Standing;
    BeginShape(p, stored);
    var start := Begin(p, stored);
    if start.st.Some? {
      LoopStarts(p, 0, start.st.value, NO_CACHES);
    }
  }

  /** The position of the save a state file comes from, or -1 when the log saved nothing. */
  lemma LastSave(stored: Stored, log: seq<Event>) returns (k: int)
    ensures -1 <= k < |log|
    ensures k == -1 ==> After(stored, log) == stored
    ensures k >= 0 ==> log[k].Saved? && After(stored, log) == File(Encode(log[k].saved))
    ensures forall m | k < m < |log| :: !log[m].Saved?
    decreases |log|
  {
    if log == [] || log[|log| - 1].Saved? {
      k := |log| - 1;
    } else {
      k := LastSave(stored, log[..|log| - 1]);
    }
  }

  /** What a life leaves is what it found, or nothing, or a state it saved. */
  lemma LeftByLife(life: Life, stored: Stored) returns (k: int)
    ensures var log := LogOf(life, stored);
            && -1 <= k < |log|
            && (k == -1 ==> Standing(LeftBy(life, stored)).None? || LeftBy(life, stored) == stored)
            && (k >= 0 ==> log[k].Saved? && LeftBy(life, stored) == File(Encode(log[k].saved))
                           && Standing(LeftBy(life, stored)) == Some(log[k].saved))
            && (forall m | k < m < |log| :: !log[m].Saved?)
  {
    var log := LogOf(life, stored);
    k := LastSave(stored, log);
    if k >= 0 {
      SavedStateReadsBack(log[k].saved);
      assert !(stored.Undecodable? || (stored.File? && Decode(stored.payload).None?));
    }
  }

  /**
   Whatever is on disk, every state a process saves is resumable by a process of the same
   mode, and the stage loop never raises the illegal-transition error.
   */
  lemma SavedStatesAreResumable(p: Process, stored: Stored)
    ensures HealthyLog(p.command.options.mode, Run(p, stored))
  {
    hide Begin, RunFrom, Standing, ValidTransition;
    BeginShape(p, stored);
    var start := Begin(p, stored);
    if start.st.Some? {
      ValidAtStart(p.command.options.mode, start.st.value);
      LoopSavesCheckpoints(p, 0, start.st.value, NO_CACHES);
    }
  }

  lemma ValidAtStart(mode: Mode, st: InstallState)
    requires ValidTransition(mode, st)
    ensures AtIndex(mode, 0, st)
  {
  }
}
