/** Taking a state over with a newer installer. */
module InstallerAdoption {
  import opened Wrappers
  import opened InstallerModel
  import opened InstallerStages
  import opened InstallerRun
  import opened InstallerCheckpoint
  import opened InstallerHistory

  /** The bootstrap record was made by another installer, and by nothing else than that. */
  predicate OnlyInstallerDiffers(p: Process, st: InstallState) {
    && Bootstrap in st.completed
    && var inputs := InputsOf(p.command, p.facts, Bootstrap, st);
    && inputs.Some?
    && var recorded := st.completed[Bootstrap].inputs;
    && recorded.values.BootstrapValues?
    && recorded.values.installer == st.installer
    && recorded == inputs.value.(values := inputs.value.values.(installer := recorded.values.installer))
  }

  /**
   A state is taken over exactly when the installer is another compatible one and every other
   bootstrap input is unchanged; then only the identity, the time and the bootstrap record
   change, and the new record is what the new installer computes for itself.
   */
  lemma AdoptionIsSafe(p: Process, st: InstallState)
    ensures var st' := AdoptUpdate(p, st);
            && (st' != st <==>
                  st.installer != p.command.installer && CanAdoptUpdate(p.command, st) && OnlyInstallerDiffers(p, st))
            && (st' != st ==>
                  && st' == st.(installer := p.command.installer, completed := st'.completed, updatedAt := p.now)
                  && st'.completed.Keys == st.completed.Keys
                  && (forall stage | stage in st.completed && stage != Bootstrap ::
                        st'.completed[stage] == st.completed[stage])
                  && Some(st'.completed[Bootstrap].inputs) == InputsOf(p.command, p.facts, Bootstrap, st'))
  {
    hide CanAdoptUpdate;
    if Bootstrap in st.completed {
      var inputs := InputsOf(p.command, p.facts, Bootstrap, st).value;
      var previous := inputs.(values := inputs.values.(installer := st.installer));
      if InputDigest(previous) == st.completed[Bootstrap] {
        assert previous == st.completed[Bootstrap].inputs;
      }
    }
  }

  /** In a full installation only the 0.3.0 to 0.3.1 patch is adopted before the host is tuned. */
  lemma OnlyThePatchIsAdoptedEarly(p: Process, st: InstallState, n: nat)
    requires st.mode == Full && AdoptUpdate(p, st) != st
    requires CompletedUpTo(Full, st, n)
    ensures n >= 6
    ensures n < 10 ==> st.installer.version.text == "0.3.0" && p.command.installer.version.text == "0.3.1"
  {
    hide InputsOf;
    var patch := st.installer.version.text == "0.3.0" && p.command.installer.version.text == "0.3.1";
    var start := if patch then 6 else 10;
    var k :| start <= k < |FULL_STAGE_ORDER| && FULL_STAGE_ORDER[k] == st.currentStage;
    PositionOfOrder(Full, k);
    if n < |FULL_STAGE_ORDER| {
      PositionOfOrder(Full, n);
      assert k == n;
    }
  }

  /** A process of another installer that does not adopt stops at BOOTSTRAP and dispatches nothing. */
  lemma OthersAreRefused(p: Process, st: InstallState)
    requires Bootstrap in st.completed && st.completed[Bootstrap].inputs.values.BootstrapValues?
    requires st.completed[Bootstrap].inputs.values.installer != p.command.installer
    ensures RunFrom(p, 0, st, NO_CACHES) == [InputChanged(Bootstrap)]
  {
    hide GuardStep, FreshStep;
    assert StageOrder(p.command.options.mode)[0] == Bootstrap;
    assert StageStep(p, 0, st, NO_CACHES).events == [InputChanged(Bootstrap)];
  }
}
