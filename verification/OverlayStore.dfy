/**
 The overlay directory and the operations on it. Each operation is the sequence of directory
 states it goes through, one for every directory made, file put in place, link switched or tree
 removed, together with its outcome; a crash leaves the directory in any one of them.
 */
module OverlayStore {
  import opened Wrappers
  import opened OverlayLock

  /** Generation IDs begin with the time they were made; the model keeps their order only. */
  type Id = nat

  /** The protected parent image: profile ID and config digest. */
  datatype Profile = Profile(id: string, parent: string)

  datatype StateFile = StateFile(
    id: Id, inputDigest: string, lockDigest: string, profile: Profile, healthy: bool)

  /**
   A generation directory: the lock its site-packages were installed from (empty when just made),
   its metadata files, whether the verifier accepted it, and whether a failure was noted in it.
   */
  datatype Generation = Generation(
    site: Option<string>, lock: Option<string>, input: Option<string>, state: Option<StateFile>,
    verified: bool, failed: bool)

  const EMPTY := Generation(None, None, None, None, false, false)

  /** The name of a quarantine directory. */
  datatype Key = Key(stamp: string, reason: string)

  datatype Quarantined = Quarantined(generation: Option<Generation>, status: Option<string>, reported: bool)

  datatype Mirror = Mirror(input: Option<string>, lock: Option<string>, state: Option<StateFile>)

  /** `current` is the name the link points to, whether or not a generation of that name exists. */
  datatype Store = Store(
    generations: map<Id, Generation>, current: Option<Id>, quarantine: map<Key, Quarantined>,
    artifacts: Artifacts, mirror: Mirror)

  datatype StoreError =
    | GenerationExists | LockInvalid | InstallFailed | VerifierFailed
    | NotALink | CurrentMissing | NoSitePackages | NoState | OtherProfile | NoMetadata | DigestChanged
    | GenerationsWithoutCurrent | RetainedLockInvalid
    | InvalidReason | NotOneRetry | QuarantineExists | NoQuarantineState | WrongGeneration
    | WheelRejected | ArtifactInvalid

  datatype Run<+T> = Run(steps: seq<Store>, outcome: Result<T, StoreError>)
  {
    /** This run after some earlier steps. */
    function From(earlier: seq<Store>): Run<T> { Run(earlier + steps, outcome) }
  }

  /** The directory after a run that is not interrupted. */
  function Last(s: Store, steps: seq<Store>): Store {
    if steps == [] then s else steps[|steps| - 1]
  }

  function Put(s: Store, id: Id, g: Generation): Store { s.(generations := s.generations[id := g]) }

  /** The lock parses and every wheel it names is in the artifact store with its content. */
  predicate Backed(rules: Rules, artifacts: Artifacts, lock: string) {
    var parsed := Parse(rules, lock);
    parsed.Ok? && forall k | 0 <= k < |parsed.value| :: Present(rules, artifacts, parsed.value[k])
  }

  function StateFor(rules: Rules, id: Id, input: string, lock: string, profile: Profile): StateFile {
    StateFile(id, rules.hash(input), rules.hash(lock), profile, false)
  }

  function Resolve(s: Store): Result<Id, StoreError> {
    if s.current.None? then Err(NotALink)
    else if s.current.value !in s.generations then Err(CurrentMissing)
    else if s.generations[s.current.value].site.None? then Err(NoSitePackages)
    else Ok(s.current.value)
  }

  /** Copies the metadata of a generation to the top of the overlay, file by file. */
  function MirrorMetadata(s: Store, id: Id): Run<()>
    requires id in s.generations
  {
    var g := s.generations[id];
    if g.input.None? then Run([], Err(NoMetadata))
    else
      var s1 := s.(mirror := s.mirror.(input := g.input));
      if g.lock.None? then Run([s1], Err(NoMetadata))
      else
        var s2 := s1.(mirror := s1.mirror.(lock := g.lock));
        if g.state.None? then Run([s1, s2], Err(NoMetadata))
        else Run([s1, s2, s2.(mirror := s2.mirror.(state := g.state))], Ok(()))
  }

  /** Points the link at a generation, then mirrors its metadata; mirroring may only warn. */
  function Activate(s: Store, id: Id): seq<Store>
    requires id in s.generations
  {
    var switched := s.(current := Some(id));
    [switched] + MirrorMetadata(switched, id).steps
  }

  /** What a build is asked for, and how pip and the verifier will answer. */
  datatype Request = Request(
    id: Id, profile: Profile, input: string, lock: string, installs: bool, verifies: bool)

  /** The contents a generation directory goes through, and why the build stops there, if it does. */
  datatype Writes = Writes(contents: seq<Generation>, error: Option<StoreError>)

  const MADE := EMPTY.(site := Some(""))

  function Given(r: Request): Generation { MADE.(lock := Some(r.lock), input := Some(r.input)) }

  function Installed(r: Request): Generation { Given(r).(site := Some(r.lock)) }

  function Finished(rules: Rules, r: Request): Generation {
    Installed(r).(verified := true, state := Some(StateFor(rules, r.id, r.input, r.lock, r.profile)))
  }

  /** A build that fails leaves a note in the generation. */
  function Noted(contents: seq<Generation>, g: Generation, error: StoreError): Writes {
    Writes(contents + [g.(failed := true)], Some(error))
  }

  function BuildWrites(rules: Rules, artifacts: Artifacts, r: Request): Writes {
    var created := [EMPTY, MADE, MADE.(lock := Some(r.lock)), Given(r)];
    if !Backed(rules, artifacts, r.lock) then Noted(created, Given(r), LockInvalid)
    else if r.lock != "" && !r.installs then Noted(created, Given(r), InstallFailed)
    else
      var installed := if r.lock == "" then created else created + [Installed(r)];
      if !r.verifies then Noted(installed, Installed(r), VerifierFailed)
      else Writes(installed + [Installed(r).(verified := true), Finished(rules, r)], None)
  }

  function PutAll(s: Store, id: Id, contents: seq<Generation>): (steps: seq<Store>)
    ensures |steps| == |contents| && forall k | 0 <= k < |steps| :: steps[k] == Put(s, id, contents[k])
  {
    if contents == [] then [] else [Put(s, id, contents[0])] + PutAll(s, id, contents[1..])
  }

  function BuildGeneration(rules: Rules, s: Store, r: Request): Run<StateFile> {
    if r.id in s.generations then Run([], Err(GenerationExists))
    else
      var writes := BuildWrites(rules, s.artifacts, r);
      var written := PutAll(s, r.id, writes.contents);
      if writes.error.Some? then Run(written, Err(writes.error.value))
      else Run(
        written + Activate(Put(s, r.id, Finished(rules, r)), r.id),
        Ok(StateFor(rules, r.id, r.input, r.lock, r.profile)))
  }

  /** The first generation: nothing is installed, and nothing verified. */
  function First(rules: Rules, id: Id, profile: Profile): Generation {
    MADE.(input := Some(""), lock := Some(""), state := Some(StateFor(rules, id, "", "", profile)))
  }

  function Initialize(rules: Rules, s: Store, id: Id, profile: Profile): Run<StateFile> {
    if s.current.Some? then
      var resolved := Resolve(s);
      if resolved.Err? then Run([], Err(resolved.error))
      else
        var state := s.generations[resolved.value].state;
        if state.None? then Run([], Err(NoState))
        else if state.value.profile != profile then Run([], Err(OtherProfile))
        else Run([], Ok(state.value))
    else if s.generations != map[] then Run([], Err(GenerationsWithoutCurrent))
    else
      var given := MADE.(input := Some(""));
      var first := First(rules, id, profile);
      var written := PutAll(s, id, [EMPTY, MADE, given, given.(lock := Some("")), first]);
      Run(written + Activate(Put(s, id, first), id), Ok(first.state.value))
  }

  // Health, pruning and collection

  /** The order in which the directories are listed. */
  datatype Listing = Listing(generations: seq<Id>, artifacts: seq<string>)

  predicate Healthy(g: Generation) { g.state.Some? && g.state.value.healthy }

  /** The healthy generations among those listed, with the ID their state file gives them. */
  function HealthyOnes(s: Store, listed: seq<Id>): (found: seq<(Id, Id)>)
    ensures forall k | 0 <= k < |found| ::
              found[k].1 in s.generations && Healthy(s.generations[found[k].1])
              && found[k].0 == s.generations[found[k].1].state.value.id && found[k].1 in listed
  {
    if listed == [] then []
    else
      var rest := HealthyOnes(s, listed[1..]);
      var id := listed[0];
      if id in s.generations && Healthy(s.generations[id])
      then [(s.generations[id].state.value.id, id)] + rest
      else rest
  }

  function InsertById(item: (Id, Id), sorted: seq<(Id, Id)>): seq<(Id, Id)> {
    if sorted == [] || item.0 <= sorted[0].0 then [item] + sorted
    else [sorted[0]] + InsertById(item, sorted[1..])
  }

  function SortById(items: seq<(Id, Id)>): seq<(Id, Id)> {
    if items == [] then [] else InsertById(items[0], SortById(items[1..]))
  }

  function LastTwo(items: seq<(Id, Id)>): seq<(Id, Id)> {
    if |items| <= 2 then items else items[|items| - 2..]
  }

  function IdsOf(items: seq<(Id, Id)>): set<Id> { set k | 0 <= k < |items| :: items[k].0 }

  /** The directories of the items that are not kept, in order. */
  function Doomed(items: seq<(Id, Id)>, keep: set<Id>): seq<Id> {
    if items == [] then []
    else (if items[0].0 in keep then [] else [items[0].1]) + Doomed(items[1..], keep)
  }

  function RemoveGenerations(s: Store, ids: seq<Id>): seq<Store>
    decreases |ids|
  {
    if ids == [] then []
    else
      var s' := s.(generations := s.generations - {ids[0]});
      [s'] + RemoveGenerations(s', ids[1..])
  }

  predicate LockReadable(rules: Rules, s: Store, id: Id) {
    && id in s.generations
    && s.generations[id].lock.Some?
    && Parse(rules, s.generations[id].lock.value).Ok?
  }

  function DigestsOf(wheels: seq<Wheel>): set<string> { set k | 0 <= k < |wheels| :: wheels[k].digest }

  function LockOf(rules: Rules, s: Store, id: Id): seq<Wheel> {
    if LockReadable(rules, s, id) then Parse(rules, s.generations[id].lock.value).value else []
  }

  /** The digests the locks of these generations name. */
  function Referenced(rules: Rules, s: Store, ids: set<Id>): set<string> {
    set id, digest | id in ids && digest in DigestsOf(LockOf(rules, s, id)) :: digest
  }

  /** What collection removes: digest directories nothing references; other names stay. */
  function Garbage(referenced: set<string>, listed: seq<string>): seq<string> {
    if listed == [] then []
    else (if listed[0] in referenced || !Digest(listed[0]) then [] else [listed[0]]) + Garbage(referenced, listed[1..])
  }

  function RemoveArtifacts(s: Store, names: seq<string>): seq<Store>
    decreases |names|
  {
    if names == [] then []
    else
      var s' := s.(artifacts := s.artifacts - {names[0]});
      [s'] + RemoveArtifacts(s', names[1..])
  }

  function Collect(rules: Rules, s: Store, keep: set<Id>, listed: seq<string>): Run<()> {
    if exists id | id in keep :: !LockReadable(rules, s, id) then Run([], Err(RetainedLockInvalid))
    else Run(RemoveArtifacts(s, Garbage(Referenced(rules, s, keep), listed)), Ok(()))
  }

  /** Everything after the current generation is marked. */
  function Prune(rules: Rules, s: Store, listing: Listing): Run<()> {
    var sorted := SortById(HealthyOnes(s, listing.generations));
    var keep := IdsOf(LastTwo(sorted));
    var removed := RemoveGenerations(s, Doomed(sorted, keep));
    Collect(rules, Last(s, removed), keep, listing.artifacts).From(removed)
  }

  /** Marks the current generation, unless it is marked already. */
  function Mark(s: Store, id: Id): Run<StateFile>
    requires id in s.generations && s.generations[id].state.Some?
  {
    var g := s.generations[id];
    var state := g.state.value.(healthy := true);
    if g.state.value.healthy then Run([], Ok(state))
    else
      var marked := Put(s, id, g.(state := Some(state)));
      var mirrored := MirrorMetadata(marked, id);
      Run([marked] + mirrored.steps, if mirrored.outcome.Err? then Err(mirrored.outcome.error) else Ok(state))
  }

  function MarkHealthy(rules: Rules, s: Store, listing: Listing): Run<StateFile> {
    var resolved := Resolve(s);
    if resolved.Err? then Run([], Err(resolved.error))
    else if s.generations[resolved.value].state.None? then Run([], Err(NoState))
    else
      var marked := Mark(s, resolved.value);
      if marked.outcome.Err? then marked
      else
        var pruned := Prune(rules, Last(s, marked.steps), listing);
        Run(marked.steps + pruned.steps, if pruned.outcome.Err? then Err(pruned.outcome.error) else marked.outcome)
  }

  // Artifacts

  function StoreWheel(
    rules: Rules, s: Store, filename: string, content: string, name: string, version: string): Run<Wheel>
  {
    var identity := rules.identity(filename);
    if identity.None? || identity.value.0 != rules.canonical(name) || Some(identity.value.1) != rules.normal(version)
      || IsProtected(identity.value.0)
    then Run([], Err(WheelRejected))
    else
      var digest := rules.hash(content);
      var wheel := Wheel(identity.value.0, identity.value.1, digest, filename);
      var made := if digest in s.artifacts then s else s.(artifacts := s.artifacts[digest := map[]]);
      var steps := if digest in s.artifacts then [] else [made];
      var files := made.artifacts[digest];
      if filename in files then
        if rules.hash(files[filename]) != digest then Run(steps, Err(ArtifactInvalid)) else Run(steps, Ok(wheel))
      else Run(steps + [made.(artifacts := made.artifacts[digest := files[filename := content]])], Ok(wheel))
  }

  // Repair

  predicate Reason(text: string) {
    && 3 <= |text| <= 128
    && 'A' <= text[0] <= 'Z'
    && forall k | 1 <= k < |text| ::
         'A' <= text[k] <= 'Z' || '0' <= text[k] <= '9' || text[k] == '_' || text[k] == '.'
  }

  /** The quarantine holds a generation whose state file has this ID. */
  predicate Holds(s: Store, key: Key, id: Id) {
    && key in s.quarantine
    && var g := s.quarantine[key].generation;
    && g.Some? && g.value.state.Some? && g.value.state.value.id == id
  }

  function Retryable(s: Store, reason: string, id: Id): set<Key> {
    set key | key in s.quarantine && key.reason == reason && Holds(s, key, id)
  }

  /** The quarantine an interrupted repair left, None when the link does not dangle. */
  function ExistingRetry(s: Store, reason: string): Result<Option<Key>, StoreError> {
    if s.current.None? || s.current.value in s.generations then Ok(None)
    else
      var candidates := Retryable(s, reason, s.current.value);
      if |candidates| != 1 then Err(NotOneRetry) else Ok(Some(Only(candidates)))
  }

  function Only(keys: set<Key>): (key: Key)
    requires |keys| == 1
    ensures key in keys
  {
    assert keys != {};
    OnlyOne(keys);
    var key :| key in keys;
    key
  }

  lemma OnlyOne(keys: set<Key>)
    requires |keys| == 1
    ensures forall a, b | a in keys && b in keys :: a == b
  {
    forall a, b | a in keys && b in keys ensures a == b {
      assert |keys - {a}| == 0;
      assert b !in keys - {a};
    }
  }

  /** Why a generation cannot be quarantined or replayed, apart from its artifacts. */
  function Unfit(rules: Rules, g: Generation, profile: Profile): Option<StoreError> {
    if g.state.None? then Some(NoState)
    else if g.state.value.profile != profile then Some(OtherProfile)
    else if g.input.None? || g.lock.None? then Some(NoMetadata)
    else if rules.hash(g.input.value) != g.state.value.inputDigest then Some(DigestChanged)
    else if rules.hash(g.lock.value) != g.state.value.lockDigest then Some(DigestChanged)
    else None
  }

  function QuarantineCurrent(rules: Rules, s: Store, key: Key, profile: Profile): Run<Key> {
    var resolved := Resolve(s);
    if resolved.Err? then Run([], Err(resolved.error))
    else
      var id := resolved.value;
      var g := s.generations[id];
      if g.state.Some? && g.state.value.id != id then Run([], Err(OtherProfile))
      else if Unfit(rules, g, profile).Some? then Run([], Err(Unfit(rules, g, profile).value))
      else if key in s.quarantine then Run([], Err(QuarantineExists))
      else
        var made := s.(quarantine := s.quarantine[key := Quarantined(None, None, false)]);
        var moved := s.(
          generations := s.generations - {id}, quarantine := s.quarantine[key := Quarantined(Some(g), None, false)]);
        var noted := s.(
          generations := s.generations - {id},
          quarantine := s.quarantine[key := Quarantined(Some(g), Some("quarantined"), false)]);
        var reported := s.(
          generations := s.generations - {id},
          quarantine := s.quarantine[key := Quarantined(Some(g), Some("quarantined"), true)]);
        Run([made, moved, noted, reported], Ok(key))
  }

  /** Rewrites the status of a quarantine; its state file must be there. */
  function UpdateStatus(s: Store, key: Key, status: string): Run<()>
    requires key in s.quarantine
  {
    if s.quarantine[key].status.None? then Run([], Err(NoQuarantineState))
    else Run([s.(quarantine := s.quarantine[key := s.quarantine[key].(status := Some(status))])], Ok(()))
  }

  /** Rebuilds the generation a quarantine holds. */
  function Replay(
    rules: Rules, s: Store, key: Key, profile: Profile, id: Id, installs: bool, verifies: bool): Run<StateFile>
    requires key in s.quarantine && s.quarantine[key].generation.Some?
  {
    var g := s.quarantine[key].generation.value;
    if Unfit(rules, g, profile).Some? then Run([], Err(Unfit(rules, g, profile).value))
    else if !Backed(rules, s.artifacts, g.lock.value) then Run([], Err(LockInvalid))
    else
      var built := BuildGeneration(
        rules, s, Request(id, profile, g.input.value, g.lock.value, installs, verifies));
      var after := Last(s, built.steps);
      var error :=
        if built.outcome.Err? then Some(built.outcome.error)
        else if Resolve(after) != Ok(id) then Some(WrongGeneration)
        else None;
      BuildShape(rules, s, Request(id, profile, g.input.value, g.lock.value, installs, verifies));
      var updated := UpdateStatus(after, key, if error.Some? then "rebuild-failed" else "rebuilt");
      Run(built.steps + updated.steps,
          if updated.outcome.Err? then Err(updated.outcome.error)
          else if error.Some? then Err(error.value)
          else built.outcome)
  }

  /** A step that only writes the generation `id`. */
  predicate Building(s: Store, x: Store, id: Id) {
    id in x.generations && x == s.(generations := s.generations[id := x.generations[id]])
  }

  /** A step after the link was switched to the new generation. */
  predicate Switched(s: Store, x: Store, id: Id) {
    && id in x.generations
    && x == s.(generations := s.generations[id := x.generations[id]], current := Some(id), mirror := x.mirror)
  }

  lemma ActivateSwitches(s: Store, id: Id, g: Generation)
    requires g.input.Some? && g.lock.Some? && g.state.Some?
    ensures var steps := Activate(Put(s, id, g), id);
            && |steps| == 4
            && (forall k | 0 <= k < 4 :: Switched(s, steps[k], id) && steps[k].generations[id] == g)
            && steps[3].mirror == Mirror(g.input, g.lock, g.state)
  {
  }

  /** Every step of a build either only writes the new generation or has switched to it. */
  lemma BuildShape(rules: Rules, s: Store, r: Request)
    ensures var run := BuildGeneration(rules, s, r);
            && (forall k | 0 <= k < |run.steps| :: Building(s, run.steps[k], r.id) || Switched(s, run.steps[k], r.id))
            && (run.outcome.Err? ==> forall k | 0 <= k < |run.steps| :: Building(s, run.steps[k], r.id))
            && (forall k | 0 <= k < |run.steps| ::
                  var state := run.steps[k].generations[r.id].state;
                  state.Some? ==> state == Finished(rules, r).state)
            && (run.steps != [] ==> r.id !in s.generations)
            && (forall k | 0 <= k < |run.steps|
                  && Switched(s, run.steps[k], r.id) && !Building(s, run.steps[k], r.id) ::
                  && run.steps[k].generations[r.id] == Finished(rules, r)
                  && Backed(rules, s.artifacts, r.lock) && r.verifies)
            && (run.outcome.Ok? ==>
                  && run.steps != [] && Switched(s, Last(s, run.steps), r.id)
                  && Last(s, run.steps).generations[r.id] == Finished(rules, r)
                  && Backed(rules, s.artifacts, r.lock)
                  && Last(s, run.steps).mirror
                     == Mirror(Finished(rules, r).input, Finished(rules, r).lock, Finished(rules, r).state))
  {
    hide Backed, Activate, StateFor, BuildWrites, Finished, Put, Building, Switched;
    var writes := BuildWrites(rules, s.artifacts, r);
    var written := PutAll(s, r.id, writes.contents);
    var g := Finished(rules, r);
    WritesShape(rules, s.artifacts, r);
    ActivateSwitches(s, r.id, g);
    forall k | 0 <= k < |written|
      ensures r.id in written[k].generations && written[k].generations[r.id] == writes.contents[k]
      ensures Building(s, written[k], r.id)
    {
      PutBuilds(s, r.id, writes.contents[k]);
    }
  }

  lemma PutBuilds(s: Store, id: Id, g: Generation)
    ensures id in Put(s, id, g).generations && Put(s, id, g).generations[id] == g
    ensures Building(s, Put(s, id, g), id)
  {
  }

  lemma WritesShape(rules: Rules, artifacts: Artifacts, r: Request)
    ensures var writes := BuildWrites(rules, artifacts, r);
            && (forall k | 0 <= k < |writes.contents| ::
                  writes.contents[k].state.Some? ==> writes.contents[k].state == Finished(rules, r).state)
            && (writes.error.None? <==> Backed(rules, artifacts, r.lock) && (r.lock == "" || r.installs) && r.verifies)
    ensures var g := Finished(rules, r); g.input == Some(r.input) && g.lock == Some(r.lock) && g.state.Some?
  {
    hide Backed, StateFor;
  }

  function Repair(
    rules: Rules, s: Store, key: Key, profile: Profile, id: Id, installs: bool, verifies: bool): Run<StateFile>
  {
    if !Reason(key.reason) then Run([], Err(InvalidReason))
    else
      var retry := ExistingRetry(s, key.reason);
      if retry.Err? then Run([], Err(retry.error))
      else if retry.value.Some? then Replay(rules, s, retry.value.value, profile, id, installs, verifies)
      else
        var moved := QuarantineCurrent(rules, s, key, profile);
        if moved.outcome.Err? then Run(moved.steps, Err(moved.outcome.error))
        else
          Replay(rules, Last(s, moved.steps), key, profile, id, installs, verifies).From(moved.steps)
  }
}
