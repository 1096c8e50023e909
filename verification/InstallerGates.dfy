/**
 What lets a process accept a plan, change the host or start a large stage: the command line, the
 operator and the answers of the host in that very process.
 */
module InstallerGates {
  import opened Wrappers
  import opened InstallerModel
  import opened InstallerStages
  import opened InstallerRun
  import opened InstallerHistory

  function AcceptedOnCommandLine(p: Process, phase: Phase): Option<PlanDigest> {
    if phase == KernelPhase then p.command.options.acceptedKernelPlan else p.command.options.acceptedHostPlan
  }

  /**
   Unattended, a plan is accepted only by its digest on the command line, and the group is granted
   exactly if asked for there with the host plan; otherwise the operator said yes to the plan, and
   to the group if it is granted, which is never asked for root.
   */
  predicate Genuine(p: Process, e: Event)
    requires e.Accepted?
  {
    var options := p.command.options;
    && e.installer == p.command.installer
    && if options.nonInteractive then
         && AcceptedOnCommandLine(p, e.phase) == Some(e.digest)
         && e.granted == (e.phase == TuningPhase && options.acceptDockerGroup)
       else
         && p.oracle.confirm(e.phase) == Returned(true)
         && e.digest.PlanDigest?
         && (if e.phase == KernelPhase || e.digest.plan.targetUser == "root" then !e.granted
             else p.oracle.dockerGroup == Returned(e.granted))
  }

  predicate NeedsDisk(stage: Stage) { stage == ImagePullOrBuild || stage == ProjectInit }

  /** The condition an event meets in the process that leaves it. */
  predicate Gated(p: Process, e: Event) {
    match e
    case Accepted(_, _, _, _, _) => Genuine(p, e)
    case Applied(phase, plan, _, applier) =>
      applier == p.command.installer && p.oracle.plan(phase) == Returned(plan)
    case Dispatched(stage, _) => NeedsDisk(stage) ==> p.oracle.disk(stage) == Enough
    case _ => true
  }

  predicate AllGated(p: Process, events: seq<Event>) {
    forall k | 0 <= k < |events| :: Gated(p, events[k])
  }

  /** The plans a process holds are those the planner gave it. */
  predicate Honest(p: Process, caches: Caches) {
    && (caches.kernelPlan.Some? ==> p.oracle.plan(KernelPhase) == Returned(caches.kernelPlan.value))
    && (caches.hostPlan.Some? ==> p.oracle.plan(TuningPhase) == Returned(caches.hostPlan.value))
  }

  lemma DispatchIsGated(p: Process, st: InstallState, caches: Caches, stage: Stage)
    requires Honest(p, caches)
    ensures var d := Dispatch(p, st, caches, stage); AllGated(p, d.events) && Honest(p, d.caches)
  {
  }

  lemma StepIsGated(p: Process, i: nat, st: InstallState, caches: Caches)
    requires i < |StageOrder(p.command.options.mode)| && Honest(p, caches)
    ensures var step := StageStep(p, i, st, caches); AllGated(p, step.events) && Honest(p, step.caches)
  {
    hide Dispatch, InputsOf, ResultOf, Recorded, Settled, ResolvedRelease, StageOrder;
    var stage := StageOrder(p.command.options.mode)[i];
    DispatchIsGated(p, st, caches, stage);
    var (caches', enough) := DiskCheck(p, st, caches, stage);
    DispatchIsGated(p, st, caches', stage);
  }

  lemma {:induction false} LoopIsGated(p: Process, i: nat, st: InstallState, caches: Caches)
    requires i <= |StageOrder(p.command.options.mode)| && Honest(p, caches)
    ensures AllGated(p, RunFrom(p, i, st, caches))
    decreases |StageOrder(p.command.options.mode)| - i
  {
    hide StageStep, Gated, Honest;
    if i < |StageOrder(p.command.options.mode)| {
      var step := StageStep(p, i, st, caches);
      StepIsGated(p, i, st, caches);
      if !step.halted {
        LoopIsGated(p, i + 1, step.st, step.caches);
      }
    }
  }

  /**
   In every process, whatever is on disk: a plan is accepted only by the command line or the
   operator, the host is given only the plan the planner returned to this process, and an image
   or a project is only started with enough disk.
   */
  lemma EveryEventIsGated(p: Process, stored: Stored)
    ensures AllGated(p, Run(p, stored))
  {
    hide Begin, RunFrom, Standing, Genuine;
    BeginShape(p, stored);
    var start := Begin(p, stored);
    if start.st.Some? {
      LoopIsGated(p, 0, start.st.value, NO_CACHES);
    }
  }

  predicate Once(reports: seq<string>) {
    forall i, j | 0 <= i < j < |reports| :: reports[i] != reports[j]
  }

  /** Where a report first occurs, or the length of the list. */
  function FirstAt(reports: seq<string>, report: string): nat {
    if reports == [] || reports[0] == report then 0 else 1 + FirstAt(reports[1..], report)
  }

  /** Each report once, and in the order in which they first occur in `all`. */
  predicate FirstInOrder(all: seq<string>, reports: seq<string>) {
    forall i, j | 0 <= i < j < |reports| :: FirstAt(all, reports[i]) < FirstAt(all, reports[j])
  }

  lemma {:induction false} FirstAtMore(done: seq<string>, rest: seq<string>, report: string)
    ensures FirstAt(done + rest, report)
         == if report in done then FirstAt(done, report) else |done| + FirstAt(rest, report)
    ensures report in done ==> FirstAt(done, report) < |done|
  {
    if done == [] {
      assert done + rest == rest;
    } else {
      assert (done + rest)[1..] == done[1..] + rest;
      assert done == [done[0]] + done[1..];
      FirstAtMore(done[1..], rest, report);
    }
  }

  /** What is kept of `done` stays, and of `rest` comes what is new. */
  lemma {:induction false} FirstOnesAre(done: seq<string>, kept: seq<string>, rest: seq<string>)
    requires FirstInOrder(done, kept) && forall report :: report in kept <==> report in done
    ensures var merged := FirstOnes(kept, rest);
            && FirstInOrder(done + rest, merged)
            && forall report :: report in merged <==> report in done + rest
    decreases |rest|
  {
    if rest == [] {
      assert done + rest == done;
    } else {
      var done', kept' := done + [rest[0]], if rest[0] in kept then kept else kept + [rest[0]];
      assert done' + rest[1..] == done + rest;
      forall i, j | 0 <= i < j < |kept'| ensures FirstAt(done', kept'[i]) < FirstAt(done', kept'[j]) {
        FirstAtMore(done, [rest[0]], kept'[i]);
        FirstAtMore(done, [rest[0]], kept'[j]);
        assert kept'[i] in kept;
      }
      FirstOnesAre(done', kept', rest[1..]);
    }
  }

  /** Merged reports are all of the old and the new ones, each once, in the order they first came. */
  lemma ReportsAreKeptOnce(known: seq<string>, added: seq<string>)
    ensures var merged := MergeReports(known, added);
            && Once(merged)
            && FirstInOrder(known + added, merged)
            && (forall report :: report in merged <==> report in known || report in added)
  {
    FirstOnesAre([], [], known + added);
    assert [] + (known + added) == known + added;
  }
}
