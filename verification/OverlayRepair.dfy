/**
 Repair: the current generation moves to quarantine and is rebuilt from its own lock. Wherever
 it is interrupted its texts are kept, and a retry finishes it.
 */
module OverlayRepair {
  import opened Wrappers
  import opened OverlayLock
  import opened OverlayStore
  import opened OverlaySafety

  predicate Texts(g: Generation, input: string, lock: string) {
    g.input == Some(input) && g.lock == Some(lock)
  }

  /** The only quarantine of this reason that holds the current generation, with these texts. */
  predicate WaitsIn(rules: Rules, s: Store, key: Key, input: string, lock: string) {
    && s.current.Some? && s.current.value !in s.generations
    && HeldGood(rules, s, key, s.current.value)
    && Retryable(s, key.reason, s.current.value) == {key}
    && Texts(s.quarantine[key].generation.value, input, lock)
  }

  predicate LiveWith(rules: Rules, s: Store, input: string, lock: string) {
    && s.current.Some? && s.current.value in s.generations
    && Good(rules, s.artifacts, s.generations[s.current.value], s.current.value)
    && Texts(s.generations[s.current.value], input, lock)
  }

  /** The link names a working generation with these texts, or one waiting for a retry. */
  ghost predicate Conserved(rules: Rules, s: Store, reason: string, input: string, lock: string) {
    LiveWith(rules, s, input, lock) || exists key: Key :: key.reason == reason && WaitsIn(rules, s, key, input, lock)
  }

  ghost predicate Keeps(rules: Rules, s: Store, reason: string, input: string, lock: string) {
    Safe(rules, s) && Conserved(rules, s, reason, input, lock)
  }

  ghost predicate AllKeep(rules: Rules, steps: seq<Store>, reason: string, input: string, lock: string) {
    forall k | 0 <= k < |steps| :: Keeps(rules, steps[k], reason, input, lock)
  }

  lemma HeldAlone(rules: Rules, s: Store, key: Key, id: Id)
    requires HeldOnce(s) && Holds(s, key, id)
    ensures Retryable(s, key.reason, id) == {key}
  {
  }

  /** While the retry builds, the quarantine stays what it is. */
  lemma WaitsWhileBuilding(rules: Rules, s: Store, x: Store, id: Id, key: Key, input: string, lock: string)
    requires WaitsIn(rules, s, key, input, lock) && Building(s, x, id) && s.current != Some(id)
    ensures WaitsIn(rules, x, key, input, lock)
  {
    hide Good;
    assert Retryable(x, key.reason, s.current.value) == Retryable(s, key.reason, s.current.value);
  }

  /** A status changes nothing that matters. */
  lemma StatusIsOnlyStatus(
    rules: Rules, s: Store, key: Key, status: string, reason: string, input: string, lock: string)
    requires Keeps(rules, s, reason, input, lock) && key in s.quarantine
    ensures AllKeep(rules, UpdateStatus(s, key, status).steps, reason, input, lock)
  {
    hide Good;
    if s.quarantine[key].status.Some? {
      var x := UpdateStatus(s, key, status).steps[0];
      forall k, g ensures Holds(x, k, g) <==> Holds(s, k, g) {
      }
      StatusIsSafe(rules, s, x, key);
      if !LiveWith(rules, s, input, lock) {
        var k: Key :| k.reason == reason && WaitsIn(rules, s, k, input, lock);
        assert Retryable(x, k.reason, s.current.value) == Retryable(s, k.reason, s.current.value);
        assert WaitsIn(rules, x, k, input, lock);
      }
    }
  }

  predicate OnlyStatus(s: Store, x: Store, key: Key)
    requires key in s.quarantine
  {
    && key in x.quarantine && x.quarantine[key].generation == s.quarantine[key].generation
    && x == s.(quarantine := s.quarantine[key := x.quarantine[key]])
  }

  lemma StatusIsSafe(rules: Rules, s: Store, x: Store, key: Key)
    requires Safe(rules, s) && key in s.quarantine && OnlyStatus(s, x, key)
    ensures Safe(rules, x)
  {
    hide Good;
    forall k, g ensures Holds(x, k, g) <==> Holds(s, k, g) {
    }
    if s.current.Some? && s.current.value !in s.generations {
      var k :| HeldGood(rules, s, k, s.current.value);
      assert HeldGood(rules, x, k, s.current.value);
    }
  }

  /** The build inside a retry. */
  lemma ReplayBuilds(
    rules: Rules, s: Store, r: Request, key: Key, input: string, lock: string)
    requires Safe(rules, s) && Fresh(s, r.id) && WaitsIn(rules, s, key, input, lock)
    requires r.input == input && r.lock == lock
    ensures AllKeep(rules, BuildGeneration(rules, s, r).steps, key.reason, input, lock)
    ensures Keeps(rules, Last(s, BuildGeneration(rules, s, r).steps), key.reason, input, lock)
  {
    hide BuildGeneration, Safe, WaitsIn, Good, Finished;
    BuildShape(rules, s, r);
    BuildIsSafe(rules, s, r);
    FreshIsNotCurrent(s, r.id);
    var steps := BuildGeneration(rules, s, r).steps;
    forall k | 0 <= k < |steps| ensures Keeps(rules, steps[k], key.reason, input, lock) {
      if Building(s, steps[k], r.id) {
        WaitsWhileBuilding(rules, s, steps[k], r.id, key, input, lock);
      } else {
        FinishedIsGood(rules, s, r);
        assert LiveWith(rules, steps[k], input, lock);
      }
    }
    assert Keeps(rules, s, key.reason, input, lock);
  }

  lemma FreshIsNotCurrent(s: Store, id: Id)
    requires Fresh(s, id)
    ensures s.current != Some(id)
  {
  }

  lemma FinishedIsGood(rules: Rules, s: Store, r: Request)
    requires Backed(rules, s.artifacts, r.lock)
    ensures Good(rules, s.artifacts, Finished(rules, r), r.id) && Texts(Finished(rules, r), r.input, r.lock)
  {
    hide Backed;
  }

  lemma ReplayKeeps(
    rules: Rules, s: Store, key: Key, profile: Profile, id: Id, installs: bool, verifies: bool,
    input: string, lock: string)
    requires Safe(rules, s) && Fresh(s, id) && WaitsIn(rules, s, key, input, lock)
    ensures AllKeep(rules, Replay(rules, s, key, profile, id, installs, verifies).steps, key.reason, input, lock)
  {
    hide BuildGeneration, Safe, WaitsIn, Good, UpdateStatus, Unfit, Backed, Conserved, Keeps;
    HeldTexts(rules, s, key, input, lock);
    var r := Request(id, profile, input, lock, installs, verifies);
    if Unfit(rules, s.quarantine[key].generation.value, profile).None? && Backed(rules, s.artifacts, lock) {
      ReplayBuilds(rules, s, r, key, input, lock);
      BuildShape(rules, s, r);
      var after := Last(s, BuildGeneration(rules, s, r).steps);
      StatusIsOnlyStatus(rules, after, key, "rebuilt", key.reason, input, lock);
      StatusIsOnlyStatus(rules, after, key, "rebuild-failed", key.reason, input, lock);
    }
  }

  lemma HeldTexts(rules: Rules, s: Store, key: Key, input: string, lock: string)
    requires WaitsIn(rules, s, key, input, lock)
    ensures key in s.quarantine && s.quarantine[key].generation.Some?
    ensures Texts(s.quarantine[key].generation.value, input, lock)
    ensures s.current.Some? && s.current.value !in s.generations
    ensures Retryable(s, key.reason, s.current.value) == {key}
    ensures Holds(s, key, s.current.value)
    ensures Good(rules, s.artifacts, s.quarantine[key].generation.value, s.current.value)
  {
  }

  /** What moving the current generation to quarantine goes through. */
  lemma QuarantineKeeps(rules: Rules, s: Store, key: Key, profile: Profile, input: string, lock: string)
    requires Safe(rules, s) && LiveWith(rules, s, input, lock)
    ensures var run := QuarantineCurrent(rules, s, key, profile);
            && AllKeep(rules, run.steps, key.reason, input, lock)
            && (run.outcome.Ok? ==>
                  && run.outcome.value == key && |run.steps| == 4
                  && WaitsIn(rules, Last(s, run.steps), key, input, lock)
                  && (forall id :: Fresh(s, id) ==> Fresh(Last(s, run.steps), id)))
  {
    hide Good, Unfit, Safe, WaitsIn, Keeps;
    var run := QuarantineCurrent(rules, s, key, profile);
    if run.outcome.Ok? {
      MadeKeeps(rules, s, run.steps[0], key, input, lock);
      forall k | 1 <= k < 4
        ensures Keeps(rules, run.steps[k], key.reason, input, lock)
        ensures WaitsIn(rules, run.steps[k], key, input, lock)
      {
        MovedKeeps(rules, s, run.steps[k], key, input, lock);
      }
      MovedIsFresh(rules, s, run.steps[3], key, input, lock);
    }
  }

  lemma MadeKeeps(rules: Rules, s: Store, x: Store, key: Key, input: string, lock: string)
    requires Safe(rules, s) && LiveWith(rules, s, input, lock) && key !in s.quarantine
    requires x == s.(quarantine := s.quarantine[key := Quarantined(None, None, false)])
    ensures Keeps(rules, x, key.reason, input, lock)
  {
    hide Good;
    forall k, g ensures Holds(x, k, g) <==> Holds(s, k, g) {
    }
  }

  /** The generation is in quarantine, and nowhere else. */
  predicate Moved(s: Store, x: Store, key: Key)
    requires s.current.Some? && s.current.value in s.generations
  {
    && key in x.quarantine && x.quarantine[key].generation == Some(s.generations[s.current.value])
    && x == s.(
         generations := s.generations - {s.current.value},
         quarantine := s.quarantine[key := x.quarantine[key]])
  }

  lemma MovedHolds(rules: Rules, s: Store, x: Store, key: Key, input: string, lock: string)
    requires LiveWith(rules, s, input, lock) && key !in s.quarantine && Moved(s, x, key)
    ensures forall k, g: Id :: Holds(x, k, g) <==> Holds(s, k, g) || (k == key && g == s.current.value)
  {
    hide Backed;
  }

  lemma MovedKeeps(rules: Rules, s: Store, x: Store, key: Key, input: string, lock: string)
    requires Safe(rules, s) && LiveWith(rules, s, input, lock) && key !in s.quarantine && Moved(s, x, key)
    ensures Keeps(rules, x, key.reason, input, lock) && WaitsIn(rules, x, key, input, lock)
  {
    hide Good;
    MovedHolds(rules, s, x, key, input, lock);
    assert HeldGood(rules, x, key, x.current.value);
    HeldAlone(rules, x, key, x.current.value);
    assert WaitsIn(rules, x, key, input, lock);
  }

  lemma MovedIsFresh(rules: Rules, s: Store, x: Store, key: Key, input: string, lock: string)
    requires LiveWith(rules, s, input, lock) && key !in s.quarantine && Moved(s, x, key)
    ensures forall id :: Fresh(s, id) ==> Fresh(x, id)
  {
    hide Good;
    MovedHolds(rules, s, x, key, input, lock);
  }

  /**
   In every state a repair goes through, however pip and the verifier answer, the link names a
   working generation with the original input and lock, or it dangles and exactly one quarantine
   of the same reason holds that generation with those texts.
   */
  lemma RepairConserves(
    rules: Rules, s: Store, key: Key, profile: Profile, id: Id, installs: bool, verifies: bool,
    input: string, lock: string)
    requires Keeps(rules, s, key.reason, input, lock) && Fresh(s, id)
    ensures AllKeep(rules, Repair(rules, s, key, profile, id, installs, verifies).steps, key.reason, input, lock)
  {
    hide Replay, QuarantineCurrent, Reason, Safe, Good, Fresh, Keeps;
    KeepsBoth(rules, s, key.reason, input, lock);
    if LiveWith(rules, s, input, lock) {
      QuarantineKeeps(rules, s, key, profile, input, lock);
      var moved := QuarantineCurrent(rules, s, key, profile);
      if moved.outcome.Ok? {
        var x := Last(s, moved.steps);
        HeldTexts(rules, x, key, input, lock);
        KeepsBoth(rules, x, key.reason, input, lock);
        ReplayKeeps(rules, x, key, profile, id, installs, verifies, input, lock);
      }
    } else {
      var k: Key :| k.reason == key.reason && WaitsIn(rules, s, k, input, lock);
      ReplayKeeps(rules, s, k, profile, id, installs, verifies, input, lock);
    }
  }

  lemma KeepsBoth(rules: Rules, s: Store, reason: string, input: string, lock: string)
    ensures Keeps(rules, s, reason, input, lock) <==> Safe(rules, s) && Conserved(rules, s, reason, input, lock)
  {
  }

  /** A quarantine made for one reason is not retried for another. */
  lemma OtherReasonsWait(
    rules: Rules, s: Store, key: Key, waiting: Key, profile: Profile, id: Id, installs: bool, verifies: bool,
    input: string, lock: string)
    requires Safe(rules, s) && WaitsIn(rules, s, waiting, input, lock)
    requires Reason(key.reason) && key.reason != waiting.reason
    ensures Repair(rules, s, key, profile, id, installs, verifies) == Run([], Err(NotOneRetry))
  {
    hide Good, Replay, QuarantineCurrent, Reason;
    assert Retryable(s, key.reason, s.current.value) == {};
  }

  /**
   A repair or a retry whose build succeeds ends at a working generation with the original texts.
   It reports success, too, unless the interrupted repair had not yet written its status file.
   */
  lemma RetryFinishes(
    rules: Rules, s: Store, key: Key, profile: Profile, id: Id, input: string, lock: string)
    requires Keeps(rules, s, key.reason, input, lock) && Fresh(s, id) && Reason(key.reason)
    requires OfProfile(s, profile)
    requires s.current.value in s.generations ==> key !in s.quarantine
    ensures var run := Repair(rules, s, key, profile, id, true, true);
            var x := Last(s, run.steps);
            && x.current == Some(id) && LiveWith(rules, x, input, lock)
            && (run.outcome.Ok? <==>
                  s.current.value in s.generations || s.quarantine[TheRetry(s, key.reason)].status.Some?)
            && (run.outcome.Err? ==> run.outcome.error == NoQuarantineState)
  {
    hide Replay, QuarantineCurrent, Reason, Safe, Good, Fresh, Keeps, OfProfile;
    KeepsBoth(rules, s, key.reason, input, lock);
    if LiveWith(rules, s, input, lock) {
      QuarantineKeeps(rules, s, key, profile, input, lock);
      QuarantineWorks(rules, s, key, profile, input, lock);
      var moved := QuarantineCurrent(rules, s, key, profile);
      var x := Last(s, moved.steps);
      KeepsBoth(rules, x, key.reason, input, lock);
      HeldTexts(rules, x, key, input, lock);
      ReplayFinishes(rules, x, key, profile, id, input, lock);
      var replayed := Replay(rules, x, key, profile, id, true, true);
      assert Last(s, moved.steps + replayed.steps) == Last(x, replayed.steps);
    } else {
      var k: Key :| k.reason == key.reason && WaitsIn(rules, s, k, input, lock);
      HeldTexts(rules, s, k, input, lock);
      WaitingProfile(s, k, profile);
      ReplayFinishes(rules, s, k, profile, id, input, lock);
    }
  }

  /** The generation the link names was made for this profile, wherever it is. */
  ghost predicate OfProfile(s: Store, profile: Profile) {
    && s.current.Some?
    && (s.current.value in s.generations ==>
          var state := s.generations[s.current.value].state; state.Some? && state.value.profile == profile)
    && (forall key | Holds(s, key, s.current.value) ::
          s.quarantine[key].generation.value.state.value.profile == profile)
  }

  lemma WaitingProfile(s: Store, key: Key, profile: Profile)
    requires s.current.Some? && OfProfile(s, profile) && Holds(s, key, s.current.value)
    ensures s.quarantine[key].generation.value.state.value.profile == profile
  {
  }

  /** The quarantine a retry for this reason would take. */
  function TheRetry(s: Store, reason: string): Key
    requires s.current.Some? && |Retryable(s, reason, s.current.value)| == 1
    ensures TheRetry(s, reason) in s.quarantine
  {
    Only(Retryable(s, reason, s.current.value))
  }

  lemma QuarantineWorks(rules: Rules, s: Store, key: Key, profile: Profile, input: string, lock: string)
    requires LiveWith(rules, s, input, lock) && key !in s.quarantine && OfProfile(s, profile)
    ensures var run := QuarantineCurrent(rules, s, key, profile);
            && run.outcome == Ok(key) && run.steps != []
            && var q := Last(s, run.steps).quarantine;
            && key in q && q[key].status.Some? && q[key].generation == Some(s.generations[s.current.value])
            && q[key].generation.value.state.Some?
            && q[key].generation.value.state.value.profile == profile
  {
    hide Backed;
  }

  lemma ReplayFinishes(
    rules: Rules, s: Store, key: Key, profile: Profile, id: Id, input: string, lock: string)
    requires Fresh(s, id) && WaitsIn(rules, s, key, input, lock)
    requires s.quarantine[key].generation.value.state.value.profile == profile
    ensures var run := Replay(rules, s, key, profile, id, true, true);
            var x := Last(s, run.steps);
            && run.steps != []
            && x.current == Some(id) && LiveWith(rules, x, input, lock)
            && (run.outcome.Ok? <==> s.quarantine[key].status.Some?)
            && (run.outcome.Err? ==> run.outcome.error == NoQuarantineState)
            && (run.outcome.Ok? ==> key in x.quarantine && x.quarantine[key].status == Some("rebuilt"))
  {
    hide BuildGeneration, Good, Backed, Finished;
    HeldTexts(rules, s, key, input, lock);
    GoodIs(rules, s.artifacts, s.quarantine[key].generation.value, s.current.value);
    var r := Request(id, profile, input, lock, true, true);
    BuildShape(rules, s, r);
    BuildEnds(rules, s, r);
    FinishedIsGood(rules, s, r);
    var built := BuildGeneration(rules, s, r);
    var after := Last(s, built.steps);
    assert id !in s.generations;
    assert LiveWith(rules, after, input, lock);
    var updated := UpdateStatus(after, key, "rebuilt");
    if updated.steps == [] {
      assert built.steps + updated.steps == built.steps;
    }
  }

  /**
   A retry whose build fails leaves the link dangling as it was, the texts in quarantine, and, if
   the quarantine has its state file, the status that says so.
   */
  lemma FailedRetryIsNoted(
    rules: Rules, s: Store, key: Key, profile: Profile, id: Id, installs: bool, verifies: bool,
    input: string, lock: string)
    requires Safe(rules, s) && Fresh(s, id) && WaitsIn(rules, s, key, input, lock)
    requires s.quarantine[key].generation.value.state.value.profile == profile
    requires !verifies || (lock != "" && !installs)
    ensures var run := Replay(rules, s, key, profile, id, installs, verifies);
            var x := Last(s, run.steps);
            && run.outcome.Err? && x.current == s.current && WaitsIn(rules, x, key, input, lock)
            && (s.quarantine[key].status.Some? ==> x.quarantine[key].status == Some("rebuild-failed"))
  {
    hide BuildGeneration, Good, Backed, Finished, Safe;
    HeldTexts(rules, s, key, input, lock);
    GoodIs(rules, s.artifacts, s.quarantine[key].generation.value, s.current.value);
    var r := Request(id, profile, input, lock, installs, verifies);
    BuildShape(rules, s, r);
    BuildEnds(rules, s, r);
    FreshIsNotCurrent(s, id);
    var built := BuildGeneration(rules, s, r);
    var after := Last(s, built.steps);
    if built.steps != [] {
      WaitsWhileBuilding(rules, s, after, id, key, input, lock);
    }
    var updated := UpdateStatus(after, key, "rebuild-failed");
    if updated.steps == [] {
      assert built.steps + updated.steps == built.steps;
    } else {
      StatusWaits(rules, after, updated.steps[0], key, input, lock);
    }
  }

  lemma StatusWaits(rules: Rules, s: Store, x: Store, key: Key, input: string, lock: string)
    requires WaitsIn(rules, s, key, input, lock) && OnlyStatus(s, x, key)
    ensures WaitsIn(rules, x, key, input, lock)
  {
    hide Good;
    forall k, g ensures Holds(x, k, g) <==> Holds(s, k, g) {
    }
    assert Retryable(x, key.reason, s.current.value) == Retryable(s, key.reason, s.current.value);
  }

  lemma GoodIs(rules: Rules, artifacts: Artifacts, g: Generation, id: Id)
    requires Good(rules, artifacts, g, id)
    ensures Complete(rules, g, id) && Backed(rules, artifacts, g.lock.value)
  {
  }
}
