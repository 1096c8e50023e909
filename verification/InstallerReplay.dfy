/**
 No replay: over any number of processes and crashes, a stage that was saved as complete is
 never dispatched again, unless it is one of the two guards or the installation began again.
 */
module InstallerReplay {
  import opened Wrappers
  import opened InstallerModel
  import opened InstallerStages
  import opened InstallerRun
  import opened InstallerCheckpoint
  import opened InstallerHistory

  predicate NoRestartAfter(log: seq<Event>, j: nat) {
    forall m | j < m < |log| :: !log[m].Restarted?
  }

  /** Everything saved as complete since the last restart is complete in `st`. */
  predicate Covers(st: InstallState, log: seq<Event>) {
    forall j | 0 <= j < |log| && log[j].Saved? && NoRestartAfter(log, j) ::
      log[j].saved.completed.Keys <= st.completed.Keys
  }

  /** A dispatch of a stage that is no guard is the first since the stage could be complete. */
  predicate FirstTime(log: seq<Event>, k: nat)
    requires k < |log|
  {
    log[k].Dispatched? && log[k].stage !in Guards() ==>
      forall j | 0 <= j < k && log[j].Saved? && NoRestartAfter(log[..k], j) ::
        log[k].stage !in log[j].saved.completed
  }

  lemma CoversMore(st: InstallState, st': InstallState, log: seq<Event>, more: seq<Event>)
    requires Covers(st, log)
    requires st.completed.Keys <= st'.completed.Keys
    requires forall k | 0 <= k < |more| && more[k].Saved? :: more[k].saved.completed.Keys <= st'.completed.Keys
    ensures Covers(st', log + more)
  {
    var all := log + more;
    forall j | 0 <= j < |all| && all[j].Saved? && NoRestartAfter(all, j)
      ensures all[j].saved.completed.Keys <= st'.completed.Keys
    {
      if j < |log| {
        assert all[j] == log[j];
        forall m | j < m < |log| ensures !log[m].Restarted? {
          assert all[m] == log[m];
        }
      } else {
        assert all[j] == more[j - |log|];
      }
    }
  }

  lemma CoversFresh(st: InstallState, log: seq<Event>)
    ensures Covers(st, log + [Restarted])
  {
    var all := log + [Restarted];
    forall j | 0 <= j < |all| && all[j].Saved? ensures !NoRestartAfter(all, j) {
      assert all[|log|].Restarted?;
    }
  }

  lemma StepIsFirst(p: Process, i: nat, st: InstallState, caches: Caches, log: seq<Event>)
    requires i < |StageOrder(p.command.options.mode)|
    requires Covers(st, log)
    ensures var step := StageStep(p, i, st, caches);
            && Covers(step.st, log + step.events)
            && forall k | |log| <= k < |log + step.events| :: FirstTime(log + step.events, k)
  {
    hide GuardStep, FreshStep, InputsOf;
    var step := StageStep(p, i, st, caches);
    var all := log + step.events;
    StepShape(p, i, st, caches);
    CoversMore(st, step.st, log, step.events);
    forall k | |log| <= k < |all| ensures FirstTime(all, k) {
      assert all[k] == step.events[k - |log|];
      if all[k].Dispatched? {
        assert all[..k] == log;
        assert all[k].stage !in st.completed || all[k].stage in Guards();
        assert forall j | 0 <= j < k :: all[j] == log[j];
      }
    }
  }

  lemma FirstTimeMore(log: seq<Event>, more: seq<Event>, k: nat)
    requires k < |log| && FirstTime(log, k)
    ensures FirstTime(log + more, k)
  {
    assert (log + more)[..k] == log[..k];
    assert forall j | 0 <= j <= k :: (log + more)[j] == log[j];
  }

  lemma {:induction false} LoopIsFirst(p: Process, i: nat, st: InstallState, caches: Caches, log: seq<Event>)
    requires i <= |StageOrder(p.command.options.mode)|
    requires Covers(st, log)
    ensures var all := log + RunFrom(p, i, st, caches);
            forall k | |log| <= k < |all| :: FirstTime(all, k)
    decreases |StageOrder(p.command.options.mode)| - i
  {
    hide StageStep, FirstTime, Covers;
    var all := log + RunFrom(p, i, st, caches);
    if i < |StageOrder(p.command.options.mode)| {
      var step := StageStep(p, i, st, caches);
      var rest := if step.halted then [] else RunFrom(p, i + 1, step.st, step.caches);
      var here := log + step.events;
      assert all == here + rest;
      StepIsFirst(p, i, st, caches, log);
      if !step.halted {
        LoopIsFirst(p, i + 1, step.st, step.caches, here);
      }
      forall k | |log| <= k < |all| ensures FirstTime(all, k) {
        if k < |here| {
          FirstTimeMore(here, rest, k);
        } else {
          assert FirstTime(here + RunFrom(p, i + 1, step.st, step.caches), k);
        }
      }
    }
  }

  predicate StoreCovers(stored: Stored, log: seq<Event>) {
    Standing(stored).Some? ==> Covers(Standing(stored).value, log)
  }

  /** The saves of a log grow, starting from the stages in `done`. */
  predicate Grows(done: set<Stage>, log: seq<Event>) {
    && (forall k | 0 <= k < |log| && log[k].Saved? :: done <= log[k].saved.completed.Keys)
    && (forall j, k | 0 <= j < k < |log| && log[j].Saved? && log[k].Saved? ::
          log[j].saved.completed.Keys <= log[k].saved.completed.Keys)
  }

  lemma GrowsOn(done: set<Stage>, log: seq<Event>, done': set<Stage>, more: seq<Event>)
    requires Grows(done, log) && Grows(done', more) && done <= done'
    requires forall k | 0 <= k < |log| && log[k].Saved? :: log[k].saved.completed.Keys <= done'
    ensures Grows(done, log + more)
  {
    var all := log + more;
    forall k | 0 <= k < |all| && all[k].Saved? ensures done <= all[k].saved.completed.Keys {
      assert all[k] == if k < |log| then log[k] else more[k - |log|];
    }
    forall j, k | 0 <= j < k < |all| && all[j].Saved? && all[k].Saved?
      ensures all[j].saved.completed.Keys <= all[k].saved.completed.Keys
    {
      assert all[j] == if j < |log| then log[j] else more[j - |log|];
      assert all[k] == if k < |log| then log[k] else more[k - |log|];
    }
  }

  lemma NothingGrows(done: set<Stage>)
    ensures Grows(done, [])
  {
  }

  lemma StepGrows(p: Process, i: nat, st: InstallState, caches: Caches)
    requires i < |StageOrder(p.command.options.mode)|
    ensures var step := StageStep(p, i, st, caches);
            && Grows(st.completed.Keys, step.events)
            && st.completed.Keys <= step.st.completed.Keys
            && forall k | 0 <= k < |step.events| && step.events[k].Saved? ::
                 step.events[k].saved.completed.Keys <= step.st.completed.Keys
  {
    hide StageStep, InputsOf;
    StepShape(p, i, st, caches);
  }

  /** Every save of the loop covers what was complete when the loop reached its index. */
  lemma {:induction false} LoopOnlyAdds(p: Process, i: nat, st: InstallState, caches: Caches)
    requires i <= |StageOrder(p.command.options.mode)|
    ensures Grows(st.completed.Keys, RunFrom(p, i, st, caches))
    decreases |StageOrder(p.command.options.mode)| - i
  {
    hide StageStep, Grows;
    if i == |StageOrder(p.command.options.mode)| {
      NothingGrows(st.completed.Keys);
    } else {
      var step := StageStep(p, i, st, caches);
      StepGrows(p, i, st, caches);
      if !step.halted {
        LoopOnlyAdds(p, i + 1, step.st, step.caches);
        GrowsOn(st.completed.Keys, step.events, step.st.completed.Keys, RunFrom(p, i + 1, step.st, step.caches));
      }
      assert step.halted ==> RunFrom(p, i, st, caches) == step.events;
    }
  }

  lemma AdoptionKeepsStages(p: Process, st: InstallState)
    ensures AdoptUpdate(p, st).completed.Keys == st.completed.Keys
  {
    hide InputsOf;
  }

  /** The states saved by one process grow, starting from the state it loaded. */
  lemma RunOnlyAdds(p: Process, stored: Stored)
    ensures var log := Run(p, stored);
            && Grows(if Standing(stored).Some? then Standing(stored).value.completed.Keys else {}, log)
            && (Standing(stored).None? ==>
                  forall k | 0 <= k < |log| && log[k].Saved? :: log[0].Restarted?)
  {
    hide Begin, RunFrom, Standing, ValidTransition, AdoptUpdate, NewState, Grows;
    BeginShape(p, stored);
    var start := Begin(p, stored);
    var loaded := if Standing(stored).Some? then Standing(stored).value.completed.Keys else {};
    if start.st.Some? {
      var st := start.st.value;
      LoopOnlyAdds(p, 0, st, NO_CACHES);
      if Standing(stored).Some? {
        AdoptionKeepsStages(p, Standing(stored).value);
      }
      BeginGrows(loaded, start);
      GrowsOn(loaded, start.events, st.completed.Keys, RunFrom(p, 0, st, NO_CACHES));
    } else {
      BeginGrows(loaded, start);
      assert Run(p, stored) == start.events;
    }
  }

  lemma BeginGrows(done: set<Stage>, start: Start)
    requires forall k | 0 <= k < |start.events| && start.events[k].Saved? ::
               k == |start.events| - 1 && start.st == Some(start.events[k].saved)
    requires start.st.Some? ==> done <= start.st.value.completed.Keys
    ensures Grows(done, start.events)
  {
  }

  lemma RunIsFirst(p: Process, stored: Stored, before: seq<Event>)
    requires StoreCovers(stored, before)
    ensures var all := before + Run(p, stored);
            forall k | |before| <= k < |all| :: FirstTime(all, k)
  {
    hide Begin, RunFrom, Standing, ValidTransition, AdoptUpdate, FirstTime, Covers, NewState;
    BeginShape(p, stored);
    var start := Begin(p, stored);
    var here := before + start.events;
    var rest := if start.st.None? then [] else RunFrom(p, 0, start.st.value, NO_CACHES);
    var all := before + Run(p, stored);
    assert all == here + rest;
    if start.st.Some? {
      StartCovers(p, stored, before);
      LoopIsFirst(p, 0, start.st.value, NO_CACHES, here);
    }
    forall k | |before| <= k < |all| ensures FirstTime(all, k) {
      if k < |here| {
        assert all[k] == start.events[k - |before|];
        NotDispatched(all, k);
      } else {
        assert FirstTime(here + RunFrom(p, 0, start.st.value, NO_CACHES), k);
      }
    }
  }

  lemma NotDispatched(log: seq<Event>, k: nat)
    requires k < |log| && !log[k].Dispatched?
    ensures FirstTime(log, k)
  {
  }

  lemma StartCovers(p: Process, stored: Stored, before: seq<Event>)
    requires StoreCovers(stored, before) && Begin(p, stored).st.Some?
    ensures Covers(Begin(p, stored).st.value, before + Begin(p, stored).events)
  {
    hide Begin, Standing, ValidTransition, AdoptUpdate, Covers, NewState;
    BeginShape(p, stored);
    var start := Begin(p, stored);
    if Standing(stored).Some? {
      AdoptionKeepsStages(p, Standing(stored).value);
      CoversMore(Standing(stored).value, start.st.value, before, start.events);
    } else {
      CoversFresh(start.st.value, before);
      CoversMore(start.st.value, start.st.value, before + [Restarted], [Saved(start.st.value)]);
      assert before + start.events == before + [Restarted] + [Saved(start.st.value)];
    }
  }

  /** A life leaves a state file that covers all it and its predecessors saved. */
  lemma LifeCovers(life: Life, stored: Stored, before: seq<Event>)
    requires StoreCovers(stored, before)
    ensures StoreCovers(LeftBy(life, stored), before + LogOf(life, stored))
  {
    hide Run, Standing, Covers;
    var log := Run(life.process, stored);
    var done := LogOf(life, stored);
    RunOnlyAdds(life.process, stored);
    var k := LeftByLife(life, stored);
    assert forall m | 0 <= m < |done| :: done[m] == log[m];
    if k >= 0 {
      var st := done[k].saved;
      if Standing(stored).Some? {
        CoversMore(Standing(stored).value, st, before, done);
      } else {
        CoversFresh(st, before);
        CoversMore(st, st, before + [Restarted], done[1..]);
        assert before + done == before + [Restarted] + done[1..];
      }
    } else if Standing(LeftBy(life, stored)).Some? {
      CoversMore(Standing(stored).value, Standing(stored).value, before, done);
    }
  }

  lemma {:induction false} HistoryCovers(initial: Stored, lives: seq<Life>)
    ensures StoreCovers(StoredAfter(initial, lives), History(initial, lives))
    decreases |lives|
  {
    hide Standing, Covers, LogOf, LeftBy;
    if lives == [] {
      NothingSaved(initial);
    } else {
      var earlier := lives[..|lives| - 1];
      HistoryCovers(initial, earlier);
      LifeCovers(lives[|lives| - 1], StoredAfter(initial, earlier), History(initial, earlier));
    }
  }

  lemma NothingSaved(stored: Stored)
    ensures StoreCovers(stored, [])
  {
    hide Standing;
  }

  /**
   No stage but the guards is dispatched again once it was saved as complete, whatever the
   first state file was, however many processes follow and wherever they are cut short.
   */
  lemma {:induction false} NoStageIsReplayed(initial: Stored, lives: seq<Life>, k: nat)
    requires k < |History(initial, lives)|
    ensures FirstTime(History(initial, lives), k)
    decreases |lives|
  {
    hide Standing, Covers, LeftBy, Run, FirstTime;
    var earlier, last := lives[..|lives| - 1], lives[|lives| - 1];
    var before, stored := History(initial, earlier), StoredAfter(initial, earlier);
    var done := LogOf(last, stored);
    assert History(initial, lives) == before + done;
    if k < |before| {
      NoStageIsReplayed(initial, earlier, k);
      FirstTimeMore(before, done, k);
    } else {
      HistoryCovers(initial, earlier);
      RunIsFirst(last.process, stored, before);
      var whole := before + Run(last.process, stored);
      assert before + done == whole[..|before + done|];
      FirstTimePrefix(whole, |before + done|, k);
    }
  }

  lemma FirstTimePrefix(log: seq<Event>, cut: nat, k: nat)
    requires k < cut <= |log| && FirstTime(log, k)
    ensures FirstTime(log[..cut], k)
  {
    assert log[..cut][..k] == log[..k];
  }
}
