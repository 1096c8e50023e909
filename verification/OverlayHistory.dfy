/** The overlay over any sequence of operations, each of which may be cut short anywhere. */
module OverlayHistory {
  import opened Wrappers
  import opened OverlayLock
  import opened OverlayStore
  import opened OverlaySafety
  import opened OverlayHealth
  import opened OverlayRepair

  datatype Op =
    | Init(initId: Id, initProfile: Profile)
    | Build(request: Request)
    | StoreFile(filename: string, content: string, name: string, version: string)
    | Health(listing: Listing)
    | Fix(key: Key, profile: Profile, id: Id, installs: bool, verifies: bool)

  function Steps(rules: Rules, s: Store, op: Op): seq<Store> {
    match op
    case Init(id, profile) => Initialize(rules, s, id, profile).steps
    case Build(request) => BuildGeneration(rules, s, request).steps
    case StoreFile(filename, content, name, version) => StoreWheel(rules, s, filename, content, name, version).steps
    case Health(listing) => MarkHealthy(rules, s, listing).steps
    case Fix(key, profile, id, installs, verifies) => Repair(rules, s, key, profile, id, installs, verifies).steps
  }

  /** An operation and how many of its steps were done before it ended or was killed. */
  datatype Life = Life(op: Op, cut: nat)

  function LeftBy(rules: Rules, s: Store, life: Life): Store {
    var steps := Steps(rules, s, life.op);
    Last(s, steps[..if life.cut <= |steps| then life.cut else |steps|])
  }

  function StoreAfter(rules: Rules, s: Store, lives: seq<Life>): Store
    decreases |lives|
  {
    if lives == [] then s
    else LeftBy(rules, StoreAfter(rules, s, lives[..|lives| - 1]), lives[|lives| - 1])
  }

  /** New IDs are larger than those in use, and directories are listed as they are. */
  ghost predicate Sensible(s: Store, op: Op) {
    match op
    case Init(id, _) => Fresh(s, id)
    case Build(request) => Fresh(s, request.id)
    case StoreFile(_, _, _, _) => true
    case Health(listing) => Lists(s, listing)
    case Fix(_, _, id, _, _) => Fresh(s, id)
  }

  ghost predicate AllSensible(rules: Rules, s: Store, lives: seq<Life>)
    decreases |lives|
  {
    lives == [] ||
    (var earlier := lives[..|lives| - 1];
     AllSensible(rules, s, earlier) && Sensible(StoreAfter(rules, s, earlier), lives[|lives| - 1].op))
  }

  lemma RepairIsSafe(
    rules: Rules, s: Store, key: Key, profile: Profile, id: Id, installs: bool, verifies: bool)
    requires Safe(rules, s) && Fresh(s, id)
    ensures AllSafe(rules, Repair(rules, s, key, profile, id, installs, verifies).steps)
  {
    hide Repair, Fresh;
    if s.current.None? {
      NothingToRepair(rules, s, key, profile, id, installs, verifies);
    } else if s.current.value in s.generations {
      var g := s.generations[s.current.value];
      assert LiveWith(rules, s, g.input.value, g.lock.value);
      RepairConserves(rules, s, key, profile, id, installs, verifies, g.input.value, g.lock.value);
    } else {
      var waiting :| HeldGood(rules, s, waiting, s.current.value);
      var g := s.quarantine[waiting].generation.value;
      HeldAlone(rules, s, waiting, s.current.value);
      assert WaitsIn(rules, s, waiting, g.input.value, g.lock.value);
      if key.reason == waiting.reason {
        RepairConserves(rules, s, key, profile, id, installs, verifies, g.input.value, g.lock.value);
      } else if Reason(key.reason) {
        OtherReasonsWait(rules, s, key, waiting, profile, id, installs, verifies, g.input.value, g.lock.value);
      } else {
        assert Repair(rules, s, key, profile, id, installs, verifies).steps == [] by {
          BadReason(rules, s, key, profile, id, installs, verifies);
        }
      }
    }
  }

  lemma NothingToRepair(
    rules: Rules, s: Store, key: Key, profile: Profile, id: Id, installs: bool, verifies: bool)
    requires s.current.None?
    ensures Repair(rules, s, key, profile, id, installs, verifies).steps == []
  {
  }

  lemma BadReason(
    rules: Rules, s: Store, key: Key, profile: Profile, id: Id, installs: bool, verifies: bool)
    requires !Reason(key.reason)
    ensures Repair(rules, s, key, profile, id, installs, verifies).steps == []
  {
  }

  lemma OpIsSafe(rules: Rules, s: Store, op: Op)
    requires Safe(rules, s) && Sensible(s, op)
    ensures AllSafe(rules, Steps(rules, s, op))
  {
    hide Safe, Fresh, Lists, Initialize, BuildGeneration, StoreWheel, MarkHealthy, Repair;
    match op
    case Init(id, profile) => InitializeIsSafe(rules, s, id, profile);
    case Build(request) => BuildIsSafe(rules, s, request);
    case StoreFile(filename, content, name, version) => StoringIsSafe(rules, s, filename, content, name, version);
    case Health(listing) => MarkingIsSafe(rules, s, listing);
    case Fix(key, profile, id, installs, verifies) =>
      RepairIsSafe(rules, s, key, profile, id, installs, verifies);
  }

  /** An overlay nobody has initialised; its artifact store may hold anything. */
  predicate Untouched(s: Store) {
    s.generations == map[] && s.current.None? && s.quarantine == map[]
  }

  lemma {:induction false} EveryStoreIsSafe(rules: Rules, s: Store, lives: seq<Life>)
    requires Safe(rules, s) && AllSensible(rules, s, lives)
    ensures Safe(rules, StoreAfter(rules, s, lives))
    decreases |lives|
  {
    hide Safe, Sensible, Steps;
    if lives != [] {
      var earlier, life := lives[..|lives| - 1], lives[|lives| - 1];
      var before := StoreAfter(rules, s, earlier);
      EveryStoreIsSafe(rules, s, earlier);
      OpIsSafe(rules, before, life.op);
    }
  }

  /** The generation the link names: in place, or in the quarantine that holds it. */
  ghost predicate Names(s: Store, g: Generation) {
    && s.current.Some?
    && if s.current.value in s.generations then s.generations[s.current.value] == g
       else exists key :: Holds(s, key, s.current.value) && s.quarantine[key].generation == Some(g)
  }

  /**
   After any sequence of operations cut short anywhere, whenever there is a current link, the
   generation it names exists, in place or in quarantine, its lock parses, and every wheel of it
   is in the artifact store with its content. IDs are taken to grow.
   */
  lemma EveryWheelStands(rules: Rules, initial: Store, lives: seq<Life>)
    requires Untouched(initial) && AllSensible(rules, initial, lives)
    ensures var s := StoreAfter(rules, initial, lives);
            s.current.Some? ==>
              exists g :: Names(s, g) && Complete(rules, g, s.current.value) && Backed(rules, s.artifacts, g.lock.value)
  {
    hide AllSensible, Backed;
    EveryStoreIsSafe(rules, initial, lives);
    var s := StoreAfter(rules, initial, lives);
    if s.current.Some? {
      var id := s.current.value;
      if id in s.generations {
        assert Names(s, s.generations[id]);
      } else {
        var key :| HeldGood(rules, s, key, id);
        assert Names(s, s.quarantine[key].generation.value);
      }
    }
  }

  /** Repairs of one reason, however many and wherever they are cut short, conserve the texts. */
  lemma {:induction false} RepairsConserve(
    rules: Rules, s: Store, lives: seq<Life>, reason: string, input: string, lock: string)
    requires Keeps(rules, s, reason, input, lock) && AllSensible(rules, s, lives)
    requires forall k | 0 <= k < |lives| :: lives[k].op.Fix? && lives[k].op.key.reason == reason
    ensures Keeps(rules, StoreAfter(rules, s, lives), reason, input, lock)
    decreases |lives|
  {
    hide Keeps, Repair;
    if lives != [] {
      var earlier, life := lives[..|lives| - 1], lives[|lives| - 1];
      var before, op := StoreAfter(rules, s, earlier), life.op;
      RepairsConserve(rules, s, earlier, reason, input, lock);
      RepairConserves(rules, before, op.key, op.profile, op.id, op.installs, op.verifies, input, lock);
    }
  }
}
