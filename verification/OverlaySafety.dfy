/**
 What every directory state of every operation keeps: the generation the link names, in place
 or in quarantine, is complete, and all its wheels are in the artifact store.
 */
module OverlaySafety {
  import opened Wrappers
  import opened OverlayLock
  import opened OverlayStore

  /** A generation that can be used: installed from its lock, with its texts and their digests. */
  predicate Complete(rules: Rules, g: Generation, id: Id) {
    && g.lock.Some? && g.input.Some? && g.state.Some?
    && g.site == g.lock
    && g.state.value.id == id
    && g.state.value.inputDigest == rules.hash(g.input.value)
    && g.state.value.lockDigest == rules.hash(g.lock.value)
  }

  /** Complete, and every wheel of its lock is in the store with its content. */
  predicate Good(rules: Rules, artifacts: Artifacts, g: Generation, id: Id) {
    Complete(rules, g, id) && Backed(rules, artifacts, g.lock.value)
  }

  // One build

  /**
   After any step of a build over a working overlay, the old generations are untouched and the
   link names either the old generation or the new one; the new one then holds the texts asked
   for, with their digests, is installed from that lock, and passed the verifier.
   */
  lemma BuildIsCrashSafe(rules: Rules, s: Store, r: Request, k: nat)
    requires s.current.Some? && s.current.value in s.generations
    requires k < |BuildGeneration(rules, s, r).steps|
    ensures var x := BuildGeneration(rules, s, r).steps[k];
            && x.artifacts == s.artifacts && x.quarantine == s.quarantine
            && (forall id | id in s.generations :: id in x.generations && x.generations[id] == s.generations[id])
            && (x.current == s.current || x.current == Some(r.id))
            && (x.current == Some(r.id) ==>
                  var g := x.generations[r.id];
                  && Good(rules, x.artifacts, g, r.id)
                  && g.lock == Some(r.lock) && g.input == Some(r.input) && g.state.value.profile == r.profile
                  && g.verified && r.verifies && !g.failed)
            && (BuildGeneration(rules, s, r).outcome.Err? ==> x.current == s.current)
  {
    hide BuildGeneration, Backed;
    BuildShape(rules, s, r);
  }

  /** A build that ends well leaves the link and the mirrored metadata at the new generation. */
  lemma BuildEnds(rules: Rules, s: Store, r: Request)
    ensures var run := BuildGeneration(rules, s, r);
            var x := Last(s, run.steps);
            && (run.outcome.Ok? <==>
                  && r.id !in s.generations && Backed(rules, s.artifacts, r.lock)
                  && (r.lock == "" || r.installs) && r.verifies)
            && (run.outcome.Ok? ==>
                  && Resolve(x) == Ok(r.id)
                  && Good(rules, x.artifacts, x.generations[r.id], r.id)
                  && x.mirror == Mirror(Some(r.input), Some(r.lock), Some(run.outcome.value)))
            && (run.outcome.Err? ==> x.current == s.current)
  {
    hide Backed, Activate, Parse;
    BuildShape(rules, s, r);
  }

  // The invariant

  predicate IdsMatch(s: Store) {
    forall id | id in s.generations :: s.generations[id].state.Some? ==> s.generations[id].state.value.id == id
  }

  predicate HealthyAreOld(s: Store) {
    forall id | id in s.generations && Healthy(s.generations[id]) :: s.current.Some? && id <= s.current.value
  }

  /** A generation is in one place: in one quarantine, or among the generations. */
  ghost predicate HeldOnce(s: Store) {
    && (forall a, b, id: Id | Holds(s, a, id) && Holds(s, b, id) :: a == b)
    && (forall a, id: Id | Holds(s, a, id) :: id !in s.generations)
  }

  predicate HeldGood(rules: Rules, s: Store, key: Key, id: Id) {
    Holds(s, key, id) && Good(rules, s.artifacts, s.quarantine[key].generation.value, id)
  }

  ghost predicate CurrentStands(rules: Rules, s: Store) {
    s.current.Some? ==>
      if s.current.value in s.generations
      then Good(rules, s.artifacts, s.generations[s.current.value], s.current.value)
      else exists key :: HeldGood(rules, s, key, s.current.value)
  }

  ghost predicate Safe(rules: Rules, s: Store) {
    IdsMatch(s) && HealthyAreOld(s) && HeldOnce(s) && CurrentStands(rules, s)
  }

  ghost predicate AllSafe(rules: Rules, steps: seq<Store>) {
    forall k | 0 <= k < |steps| :: Safe(rules, steps[k])
  }

  /** A new ID is larger than any in use. */
  ghost predicate Fresh(s: Store, id: Id) {
    && (forall g | g in s.generations :: g < id)
    && (forall key, g: Id | Holds(s, key, g) :: g < id)
    && (s.current.Some? ==> s.current.value < id)
  }

  lemma SafeWhileBuilding(rules: Rules, s: Store, x: Store, id: Id)
    requires Safe(rules, s) && Fresh(s, id) && Building(s, x, id)
    requires var state := x.generations[id].state; state.Some? ==> state.value.id == id && !state.value.healthy
    ensures Safe(rules, x)
  {
    hide Good;
    forall a, g ensures Holds(x, a, g) <==> Holds(s, a, g) {
    }
    if s.current.Some? && s.current.value !in s.generations {
      var key :| HeldGood(rules, s, key, s.current.value);
      assert HeldGood(rules, x, key, s.current.value);
    }
  }

  lemma SafeOnceSwitched(rules: Rules, s: Store, x: Store, id: Id)
    requires Safe(rules, s) && Fresh(s, id) && Switched(s, x, id)
    requires Good(rules, s.artifacts, x.generations[id], id) && !x.generations[id].state.value.healthy
    ensures Safe(rules, x)
  {
    hide Backed;
    forall a, g ensures Holds(x, a, g) <==> Holds(s, a, g) {
    }
  }

  lemma BuildIsSafe(rules: Rules, s: Store, r: Request)
    requires Safe(rules, s) && Fresh(s, r.id)
    ensures AllSafe(rules, BuildGeneration(rules, s, r).steps)
  {
    hide BuildGeneration, Safe, Fresh, Backed;
    BuildShape(rules, s, r);
    var steps := BuildGeneration(rules, s, r).steps;
    forall k | 0 <= k < |steps| ensures Safe(rules, steps[k]) {
      if Building(s, steps[k], r.id) {
        SafeWhileBuilding(rules, s, steps[k], r.id);
      } else {
        SafeOnceSwitched(rules, s, steps[k], r.id);
      }
    }
  }

  lemma EmptyLockIsBacked(rules: Rules, artifacts: Artifacts)
    ensures Backed(rules, artifacts, "")
  {
    assert Parse(rules, "") == Ok([]);
  }

  lemma InitializeIsSafe(rules: Rules, s: Store, id: Id, profile: Profile)
    requires Safe(rules, s) && Fresh(s, id)
    ensures AllSafe(rules, Initialize(rules, s, id, profile).steps)
  {
    hide Safe, Fresh, Backed, Activate;
    EmptyLockIsBacked(rules, s.artifacts);
    var steps := Initialize(rules, s, id, profile).steps;
    if steps != [] {
      var first := First(rules, id, profile);
      var given := MADE.(input := Some(""));
      var contents := [EMPTY, MADE, given, given.(lock := Some("")), first];
      ActivateSwitches(s, id, first);
      forall k | 0 <= k < |steps| ensures Safe(rules, steps[k]) {
        if k < 5 {
          assert steps[k] == Put(s, id, contents[k]);
          SafeWhileBuilding(rules, s, steps[k], id);
        } else {
          assert steps[k] == Activate(Put(s, id, first), id)[k - 5];
          SafeOnceSwitched(rules, s, steps[k], id);
        }
      }
    }
  }

  /**
   Initialising changes nothing once there is a current link, refuses to guess when there are
   generations without one, and otherwise ends at a first generation without requirements.
   */
  lemma InitializeEnds(rules: Rules, s: Store, id: Id, profile: Profile)
    ensures var run := Initialize(rules, s, id, profile);
            var x := Last(s, run.steps);
            && (s.current.Some? ==> run.steps == [])
            && (run.outcome.Err? ==> run.steps == [])
            && (s.current.None? ==> (run.outcome.Ok? <==> s.generations == map[]))
            && (run.outcome.Ok? ==> Resolve(x).Ok? && run.outcome.value.profile == profile)
            && (run.outcome.Ok? && s.current.None? ==>
                  && x.current == Some(id) && Complete(rules, x.generations[id], id)
                  && x.mirror == Mirror(Some(""), Some(""), Some(run.outcome.value))
                  && x.generations[id].state == Some(run.outcome.value))
  {
    hide Activate;
    ActivateSwitches(s, id, First(rules, id, profile));
  }

  // Artifacts only grow

  predicate Grows(a: Artifacts, b: Artifacts) {
    forall d | d in a :: d in b && forall f | f in a[d] :: f in b[d] && b[d][f] == a[d][f]
  }

  lemma BackedGrows(rules: Rules, a: Artifacts, b: Artifacts, lock: string)
    requires Grows(a, b) && Backed(rules, a, lock)
    ensures Backed(rules, b, lock)
  {
    hide Parse;
    var wheels := Parse(rules, lock).value;
    forall k | 0 <= k < |wheels| ensures Present(rules, b, wheels[k]) {
      assert Present(rules, a, wheels[k]);
    }
  }

  lemma SafeWithMore(rules: Rules, s: Store, x: Store)
    requires Safe(rules, s) && x == s.(artifacts := x.artifacts) && Grows(s.artifacts, x.artifacts)
    ensures Safe(rules, x)
  {
    hide Backed, Grows;
    forall a, g ensures Holds(x, a, g) <==> Holds(s, a, g) {
    }
    if s.current.Some? {
      var id := s.current.value;
      if id in s.generations {
        BackedGrows(rules, s.artifacts, x.artifacts, s.generations[id].lock.value);
      } else {
        var key :| HeldGood(rules, s, key, id);
        BackedGrows(rules, s.artifacts, x.artifacts, s.quarantine[key].generation.value.lock.value);
        assert HeldGood(rules, x, key, id);
      }
    }
  }

  /**
   Storing a wheel never changes or removes a stored file; when it succeeds the wheel is in the
   store under the digest of its content.
   */
  lemma StoringOnlyAdds(rules: Rules, s: Store, filename: string, content: string, name: string, version: string)
    ensures var run := StoreWheel(rules, s, filename, content, name, version);
            var x := Last(s, run.steps);
            && (forall k | 0 <= k < |run.steps| ::
                  run.steps[k] == s.(artifacts := run.steps[k].artifacts) && Grows(s.artifacts, run.steps[k].artifacts))
            && (run.outcome.Ok? ==>
                  && Present(rules, x.artifacts, run.outcome.value)
                  && rules.normal(version).Some?
                  && run.outcome.value
                     == Wheel(rules.canonical(name), rules.normal(version).value, rules.hash(content), filename))
            && (forall d, f | d in x.artifacts && f in x.artifacts[d] ::
                  || (d in s.artifacts && f in s.artifacts[d] && x.artifacts[d][f] == s.artifacts[d][f])
                  || (d == rules.hash(content) && f == filename && x.artifacts[d][f] == content))
  {
    hide IsProtected;
  }

  /** Storing the same content again changes nothing. */
  lemma StoringAgain(rules: Rules, s: Store, filename: string, content: string, name: string, version: string)
    requires StoreWheel(rules, s, filename, content, name, version).outcome.Ok?
    ensures var run := StoreWheel(rules, s, filename, content, name, version);
            var again := StoreWheel(rules, Last(s, run.steps), filename, content, name, version);
            again.steps == [] && again.outcome == run.outcome
  {
    hide IsProtected;
  }

  lemma StoringIsSafe(rules: Rules, s: Store, filename: string, content: string, name: string, version: string)
    requires Safe(rules, s)
    ensures AllSafe(rules, StoreWheel(rules, s, filename, content, name, version).steps)
  {
    hide Safe, StoreWheel, Grows, IsProtected, Present;
    StoringOnlyAdds(rules, s, filename, content, name, version);
    var steps := StoreWheel(rules, s, filename, content, name, version).steps;
    forall k | 0 <= k < |steps| ensures Safe(rules, steps[k]) {
      SafeWithMore(rules, s, steps[k]);
    }
  }
}
