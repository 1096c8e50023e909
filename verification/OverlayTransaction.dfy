/**
 The overlay directory as an object that is changed step by step. Each method is proved to go
 through exactly the states, and to return exactly the outcome, that the theorems speak of.
 */
module OverlayTransaction {
  import opened Wrappers
  import opened OverlayLock
  import opened OverlayStore

  lemma LastOfBoth(s: Store, a: seq<Store>, b: seq<Store>)
    ensures Last(s, a + b) == Last(Last(s, a), b)
  {
    if b == [] {
      assert a + b == a;
    }
  }

  lemma PutAgain(s: Store, id: Id, g: Generation, g': Generation)
    ensures Put(Put(s, id, g), id, g') == Put(s, id, g')
  {
    assert s.generations[id := g][id := g'] == s.generations[id := g'];
  }

  lemma PutAllMore(s: Store, id: Id, contents: seq<Generation>, g: Generation)
    ensures PutAll(s, id, contents + [g]) == PutAll(s, id, contents) + [Put(s, id, g)]
  {
  }

  class Overlay {
    const rules: Rules
    var store: Store
    /** Every state the directory was in since the object was made. */
    ghost var trace: seq<Store>

    constructor (rules: Rules, store: Store)
      ensures this.rules == rules && this.store == store && trace == []
    {
      this.rules, this.store, trace := rules, store, [];
    }

    /** The directory went through exactly these states. */
    twostate predicate Did(steps: seq<Store>)
      reads this
    {
      trace == old(trace) + steps && store == Last(old(store), steps)
    }

    method Become(next: Store)
      modifies this
      ensures Did([next])
    {
      store := next;
      trace := trace + [next];
    }

    /** Puts a generation directory or one of its files in place. */
    method Write(id: Id, g: Generation)
      modifies this
      ensures Did([Put(old(store), id, g)])
    {
      Become(Put(store, id, g));
    }

    method MirrorMetadata(id: Id) returns (outcome: Result<(), StoreError>)
      requires id in store.generations
      modifies this
      ensures var run := OverlayStore.MirrorMetadata(old(store), id); Did(run.steps) && outcome == run.outcome
    {
      var g := store.generations[id];
      if g.input.None? {
        return Err(NoMetadata);
      }
      Become(store.(mirror := store.mirror.(input := g.input)));
      if g.lock.None? {
        return Err(NoMetadata);
      }
      Become(store.(mirror := store.mirror.(lock := g.lock)));
      if g.state.None? {
        return Err(NoMetadata);
      }
      Become(store.(mirror := store.mirror.(state := g.state)));
      outcome := Ok(());
    }

    /** Switches the link; a mirror that cannot be written is only a warning. */
    method ActivateGeneration(id: Id)
      requires id in store.generations
      modifies this
      ensures Did(Activate(old(store), id))
    {
      Become(store.(current := Some(id)));
      var mirrored := MirrorMetadata(id);
    }

    /** Since it was in state `s` the directory went through these contents of one generation. */
    ghost predicate Wrote(s: Store, before: seq<Store>, id: Id, contents: seq<Generation>)
      reads this
    {
      && contents != []
      && trace == before + PutAll(s, id, contents)
      && store == Put(s, id, contents[|contents| - 1])
    }

    /** Makes the directory of a generation, and its site-packages. */
    method CreateGeneration(id: Id)
      modifies this
      ensures Wrote(old(store), old(trace), id, [EMPTY, MADE])
    {
      ghost var s := store;
      Write(id, EMPTY);
      PutAllMore(s, id, [], EMPTY);
      assert [] + [EMPTY] == [EMPTY] && PutAll(s, id, []) == [];
      ghost var contents := WriteNext(s, old(trace), id, [EMPTY], MADE);
      assert contents == [EMPTY, MADE];
    }

    /** One more content of a generation that only this transaction writes. */
    method WriteNext(ghost s: Store, ghost before: seq<Store>, id: Id, ghost contents: seq<Generation>, g: Generation)
      returns (ghost more: seq<Generation>)
      requires Wrote(s, before, id, contents)
      modifies this
      ensures more == contents + [g] && Wrote(s, before, id, more)
    {
      hide Put, PutAll;
      PutAgain(s, id, contents[|contents| - 1], g);
      PutAllMore(s, id, contents, g);
      Write(id, g);
      more := contents + [g];
    }

    /** Writes the contents of a build up to where it stops. */
    method WriteContents(r: Request) returns (error: Option<StoreError>)
      requires r.id !in store.generations
      modifies this
      ensures var writes := BuildWrites(rules, old(store).artifacts, r);
              Wrote(old(store), old(trace), r.id, writes.contents) && error == writes.error
    {
      hide Put, Backed, PutAll, Wrote;
      ghost var s, before := store, trace;
      CreateGeneration(r.id);
      var g := MADE.(lock := Some(r.lock));
      ghost var contents := WriteNext(s, before, r.id, [EMPTY, MADE], g);
      g := g.(input := Some(r.input));
      contents := WriteNext(s, before, r.id, contents, g);
      assert contents == [EMPTY, MADE, MADE.(lock := Some(r.lock)), Given(r)];
      SameArtifacts(s, before, r.id, contents);
      if !Backed(rules, store.artifacts, r.lock) {
        contents := WriteNext(s, before, r.id, contents, g.(failed := true));
        assert BuildWrites(rules, s.artifacts, r) == Writes(contents, Some(LockInvalid));
        return Some(LockInvalid);
      }
      if r.lock != "" {
        if !r.installs {
          contents := WriteNext(s, before, r.id, contents, g.(failed := true));
          assert BuildWrites(rules, s.artifacts, r) == Writes(contents, Some(InstallFailed));
          return Some(InstallFailed);
        }
        g := g.(site := Some(r.lock));
        contents := WriteNext(s, before, r.id, contents, g);
      }
      assert g == Installed(r);
      if !r.verifies {
        contents := WriteNext(s, before, r.id, contents, g.(failed := true));
        assert BuildWrites(rules, s.artifacts, r) == Writes(contents, Some(VerifierFailed));
        return Some(VerifierFailed);
      }
      g := g.(verified := true);
      contents := WriteNext(s, before, r.id, contents, g);
      g := g.(state := Some(StateFor(rules, r.id, r.input, r.lock, r.profile)));
      contents := WriteNext(s, before, r.id, contents, g);
      assert BuildWrites(rules, s.artifacts, r) == Writes(contents, None);
      error := None;
    }

    lemma SameArtifacts(s: Store, before: seq<Store>, id: Id, contents: seq<Generation>)
      requires Wrote(s, before, id, contents)
      ensures store.artifacts == s.artifacts
    {
    }

    lemma WroteAll(s: Store, before: seq<Store>, id: Id, contents: seq<Generation>)
      requires Wrote(s, before, id, contents)
      ensures trace == before + PutAll(s, id, contents) && store == Last(s, PutAll(s, id, contents))
      ensures store == Put(s, id, contents[|contents| - 1]) && id in store.generations
    {
    }

    method BuildGeneration(r: Request) returns (outcome: Result<StateFile, StoreError>)
      modifies this
      ensures var run := OverlayStore.BuildGeneration(rules, old(store), r);
              Did(run.steps) && outcome == run.outcome
    {
      hide Put, PutAll, BuildWrites, Activate, Wrote;
      ghost var s, before := store, trace;
      if r.id in store.generations {
        return Err(GenerationExists);
      }
      var error := WriteContents(r);
      ghost var writes := BuildWrites(rules, s.artifacts, r);
      ghost var written := PutAll(s, r.id, writes.contents);
      WroteAll(s, before, r.id, writes.contents);
      if error.Some? {
        return Err(error.value);
      }
      LastIsFinished(rules, s.artifacts, r);
      LastOfBoth(s, written, Activate(Put(s, r.id, Finished(rules, r)), r.id));
      ActivateGeneration(r.id);
      outcome := Ok(StateFor(rules, r.id, r.input, r.lock, r.profile));
    }

    method Initialize(id: Id, profile: Profile) returns (outcome: Result<StateFile, StoreError>)
      modifies this
      ensures var run := OverlayStore.Initialize(rules, old(store), id, profile);
              Did(run.steps) && outcome == run.outcome
    {
      hide Put, PutAll, Activate, Wrote;
      ghost var s, before := store, trace;
      if store.current.Some? {
        var resolved := Resolve(store);
        if resolved.Err? {
          return Err(resolved.error);
        }
        var state := store.generations[resolved.value].state;
        if state.None? {
          return Err(NoState);
        }
        if state.value.profile != profile {
          return Err(OtherProfile);
        }
        return Ok(state.value);
      }
      if store.generations != map[] {
        return Err(GenerationsWithoutCurrent);
      }
      CreateGeneration(id);
      var g := MADE.(input := Some(""));
      ghost var contents := WriteNext(s, before, id, [EMPTY, MADE], g);
      g := g.(lock := Some(""));
      contents := WriteNext(s, before, id, contents, g);
      g := g.(state := Some(StateFor(rules, id, "", "", profile)));
      contents := WriteNext(s, before, id, contents, g);
      ghost var given := MADE.(input := Some(""));
      assert g == First(rules, id, profile);
      assert contents == [EMPTY, MADE, given, given.(lock := Some("")), g];
      WroteAll(s, before, id, contents);
      LastOfBoth(s, PutAll(s, id, contents), Activate(Put(s, id, g), id));
      ActivateGeneration(id);
      outcome := Ok(g.state.value);
    }

    // Health

    /** The healthy generations among those listed. */
    method FindHealthy(listed: seq<Id>) returns (healthy: seq<(Id, Id)>)
      ensures healthy == HealthyOnes(store, listed)
    {
      healthy := [];
      for k := 0 to |listed|
        invariant healthy == HealthyOnes(store, listed[..k])
      {
        HealthyMore(store, listed[..k], listed[k]);
        assert listed[..k + 1] == listed[..k] + [listed[k]];
        if listed[k] in store.generations {
          var state := store.generations[listed[k]].state;
          if state.Some? && state.value.healthy {
            healthy := healthy + [(state.value.id, listed[k])];
          }
        }
      }
      assert listed[..|listed|] == listed;
    }

    /** Removes the generations that are not kept. */
    method RemoveOthers(sorted: seq<(Id, Id)>, keep: set<Id>)
      modifies this
      ensures Did(RemoveGenerations(old(store), Doomed(sorted, keep)))
    {
      ghost var s, before := store, trace;
      for k := 0 to |sorted|
        invariant trace == before + RemoveGenerations(s, Doomed(sorted[..k], keep))
        invariant store == Last(s, RemoveGenerations(s, Doomed(sorted[..k], keep)))
      {
        assert sorted[..k + 1] == sorted[..k] + [sorted[k]];
        DoomedMore(sorted[..k], sorted[k], keep);
        assert Doomed(sorted[..k], keep) + [] == Doomed(sorted[..k], keep);
        if sorted[k].0 !in keep {
          RemoveOneMore(s, Doomed(sorted[..k], keep), sorted[k].1);
          Become(store.(generations := store.generations - {sorted[k].1}));
        }
      }
      assert sorted[..|sorted|] == sorted;
    }

    /** The digests the kept locks name, unless one of the locks cannot be read. */
    method FindReferenced(keep: set<Id>) returns (referenced: Option<set<string>>)
      ensures referenced.None? <==> exists id | id in keep :: !LockReadable(rules, store, id)
      ensures referenced.Some? ==> referenced.value == Referenced(rules, store, keep)
    {
      hide LockReadable, DigestsOf, LockOf;
      var found: set<string> := {};
      var todo := keep;
      while todo != {}
        invariant todo <= keep
        invariant forall id | id in keep - todo :: LockReadable(rules, store, id)
        invariant found == Referenced(rules, store, keep - todo)
        decreases |todo|
      {
        var id :| id in todo;
        if !LockReadable(rules, store, id) {
          return None;
        }
        found := found + DigestsOf(LockOf(rules, store, id));
        assert keep - (todo - {id}) == keep - todo + {id};
        todo := todo - {id};
      }
      assert keep - todo == keep;
      referenced := Some(found);
    }

    method CollectArtifacts(keep: set<Id>, listed: seq<string>) returns (outcome: Result<(), StoreError>)
      modifies this
      ensures var run := Collect(rules, old(store), keep, listed); Did(run.steps) && outcome == run.outcome
    {
      hide LockReadable, Referenced, Digest, RemoveArtifacts, Garbage;
      ghost var s, before := store, trace;
      NothingCollected(s);
      var found := FindReferenced(keep);
      if found.None? {
        return Err(RetainedLockInvalid);
      }
      var referenced := found.value;
      assert listed[..0] == [];
      for k := 0 to |listed|
        invariant trace == before + RemoveArtifacts(s, Garbage(referenced, listed[..k]))
        invariant store == Last(s, RemoveArtifacts(s, Garbage(referenced, listed[..k])))
      {
        assert listed[..k + 1] == listed[..k] + [listed[k]];
        GarbageMore(referenced, listed[..k], listed[k]);
        assert Garbage(referenced, listed[..k]) + [] == Garbage(referenced, listed[..k]);
        if listed[k] !in referenced && Digest(listed[k]) {
          RemoveOneArtifact(s, Garbage(referenced, listed[..k]), listed[k]);
          Become(store.(artifacts := store.artifacts - {listed[k]}));
        }
      }
      assert listed[..|listed|] == listed;
      outcome := Ok(());
    }

    method MarkGenerationHealthy(listing: Listing) returns (outcome: Result<StateFile, StoreError>)
      modifies this
      ensures var run := MarkHealthy(rules, old(store), listing); Did(run.steps) && outcome == run.outcome
    {
      hide OverlayStore.MirrorMetadata, Collect, RemoveGenerations, Doomed, SortById, HealthyOnes, LastTwo, IdsOf;
      ghost var s, before := store, trace;
      var resolved := Resolve(store);
      if resolved.Err? {
        return Err(resolved.error);
      }
      var current := resolved.value;
      if store.generations[current].state.None? {
        return Err(NoState);
      }
      var state := store.generations[current].state.value.(healthy := true);
      if !store.generations[current].state.value.healthy {
        Write(current, store.generations[current].(state := Some(state)));
        ghost var marked := store;
        var mirrored := MirrorMetadata(current);
        LastOfBoth(s, [marked], OverlayStore.MirrorMetadata(marked, current).steps);
        if mirrored.Err? {
          return Err(mirrored.error);
        }
      }
      ghost var marking := Mark(s, current);
      assert trace == before + marking.steps && store == Last(s, marking.steps);
      ghost var s1 := store;
      var pruned := PruneAndCollect(listing);
      LastOfBoth(s, marking.steps, Prune(rules, s1, listing).steps);
      if pruned.Err? {
        return Err(pruned.error);
      }
      outcome := Ok(state);
    }

    method PruneAndCollect(listing: Listing) returns (outcome: Result<(), StoreError>)
      modifies this
      ensures var run := Prune(rules, old(store), listing); Did(run.steps) && outcome == run.outcome
    {
      hide Collect, RemoveGenerations, Doomed, SortById, HealthyOnes, LastTwo, IdsOf;
      ghost var s := store;
      var healthy := FindHealthy(listing.generations);
      var sorted := SortById(healthy);
      var keep := IdsOf(LastTwo(sorted));
      RemoveOthers(sorted, keep);
      ghost var removed := RemoveGenerations(s, Doomed(sorted, keep));
      ghost var s1 := store;
      outcome := CollectArtifacts(keep, listing.artifacts);
      LastOfBoth(s, removed, Collect(rules, s1, keep, listing.artifacts).steps);
    }

    // Artifacts

    method StoreWheel(filename: string, content: string, name: string, version: string)
      returns (outcome: Result<Wheel, StoreError>)
      modifies this
      ensures var run := OverlayStore.StoreWheel(rules, old(store), filename, content, name, version);
              Did(run.steps) && outcome == run.outcome
    {
      hide IsProtected;
      var identity := rules.identity(filename);
      if identity.None? || identity.value.0 != rules.canonical(name) || Some(identity.value.1) != rules.normal(version)
        || IsProtected(identity.value.0)
      {
        return Err(WheelRejected);
      }
      var digest := rules.hash(content);
      if digest !in store.artifacts {
        Become(store.(artifacts := store.artifacts[digest := map[]]));
      }
      var files := store.artifacts[digest];
      if filename in files {
        if rules.hash(files[filename]) != digest {
          return Err(ArtifactInvalid);
        }
      } else {
        Become(store.(artifacts := store.artifacts[digest := files[filename := content]]));
      }
      outcome := Ok(Wheel(identity.value.0, identity.value.1, digest, filename));
    }

    // Repair

    /** Looks through the quarantine for what an interrupted repair left. */
    method FindRetry(reason: string, listed: seq<Key>) returns (found: Result<Option<Key>, StoreError>)
      requires forall key :: key in listed <==> key in store.quarantine
      requires forall i, j | 0 <= i < j < |listed| :: listed[i] != listed[j]
      ensures found == ExistingRetry(store, reason)
    {
      if store.current.None? || store.current.value in store.generations {
        return Ok(None);
      }
      var target := store.current.value;
      var candidates: seq<Key> := [];
      for k := 0 to |listed|
        invariant forall key :: key in candidates <==>
                    key in listed[..k] && key.reason == reason && Holds(store, key, target)
        invariant forall i, j | 0 <= i < j < |candidates| :: candidates[i] != candidates[j]
      {
        assert listed[..k + 1] == listed[..k] + [listed[k]];
        assert listed[k] !in listed[..k];
        if listed[k].reason == reason && Holds(store, listed[k], target) {
          candidates := candidates + [listed[k]];
        }
      }
      assert listed[..|listed|] == listed;
      assert KeySet(candidates) == Retryable(store, reason, target);
      CountDistinct(candidates);
      if |candidates| != 1 {
        return Err(NotOneRetry);
      }
      assert candidates[0] in Retryable(store, reason, target);
      OnlyOne(Retryable(store, reason, target));
      found := Ok(Some(candidates[0]));
    }

    method QuarantineCurrent(key: Key, profile: Profile) returns (outcome: Result<Key, StoreError>)
      modifies this
      ensures var run := OverlayStore.QuarantineCurrent(rules, old(store), key, profile);
              Did(run.steps) && outcome == run.outcome
    {
      hide Unfit;
      var resolved := Resolve(store);
      if resolved.Err? {
        return Err(resolved.error);
      }
      var id := resolved.value;
      var g := store.generations[id];
      if g.state.Some? && g.state.value.id != id {
        return Err(OtherProfile);
      }
      var unfit := Unfit(rules, g, profile);
      if unfit.Some? {
        return Err(unfit.value);
      }
      if key in store.quarantine {
        return Err(QuarantineExists);
      }
      ghost var s := store;
      Become(store.(quarantine := store.quarantine[key := Quarantined(None, None, false)]));
      Become(store.(
        generations := store.generations - {id},
        quarantine := store.quarantine[key := Quarantined(Some(g), None, false)]));
      QuarantineAgain(s, key, Quarantined(None, None, false), Quarantined(Some(g), None, false));
      Become(store.(quarantine := store.quarantine[key := Quarantined(Some(g), Some("quarantined"), false)]));
      QuarantineAgain(s, key, Quarantined(Some(g), None, false), Quarantined(Some(g), Some("quarantined"), false));
      Become(store.(quarantine := store.quarantine[key := Quarantined(Some(g), Some("quarantined"), true)]));
      QuarantineAgain(
        s, key, Quarantined(Some(g), Some("quarantined"), false), Quarantined(Some(g), Some("quarantined"), true));
      outcome := Ok(key);
    }

    method UpdateStatus(key: Key, status: string) returns (outcome: Result<(), StoreError>)
      requires key in store.quarantine
      modifies this
      ensures var run := OverlayStore.UpdateStatus(old(store), key, status); Did(run.steps) && outcome == run.outcome
    {
      if store.quarantine[key].status.None? {
        return Err(NoQuarantineState);
      }
      Become(store.(quarantine := store.quarantine[key := store.quarantine[key].(status := Some(status))]));
      outcome := Ok(());
    }

    method Replay(key: Key, profile: Profile, id: Id, installs: bool, verifies: bool)
      returns (outcome: Result<StateFile, StoreError>)
      requires key in store.quarantine && store.quarantine[key].generation.Some?
      modifies this
      ensures var run := OverlayStore.Replay(rules, old(store), key, profile, id, installs, verifies);
              Did(run.steps) && outcome == run.outcome
    {
      hide Unfit, Backed, OverlayStore.BuildGeneration, OverlayStore.UpdateStatus;
      ghost var s := store;
      var g := store.quarantine[key].generation.value;
      var unfit := Unfit(rules, g, profile);
      if unfit.Some? {
        return Err(unfit.value);
      }
      FitHasTexts(rules, g, profile);
      if !Backed(rules, store.artifacts, g.lock.value) {
        return Err(LockInvalid);
      }
      var request := Request(id, profile, g.input.value, g.lock.value, installs, verifies);
      BuildShape(rules, s, request);
      var built := BuildGeneration(request);
      ghost var steps := OverlayStore.BuildGeneration(rules, s, request).steps;
      ghost var after := store;
      if built.Err? || Resolve(store) != Ok(id) {
        var updated := UpdateStatus(key, "rebuild-failed");
        LastOfBoth(s, steps, OverlayStore.UpdateStatus(after, key, "rebuild-failed").steps);
        if updated.Err? {
          return Err(updated.error);
        }
        return Err(if built.Err? then built.error else WrongGeneration);
      }
      var updated := UpdateStatus(key, "rebuilt");
      LastOfBoth(s, steps, OverlayStore.UpdateStatus(after, key, "rebuilt").steps);
      if updated.Err? {
        return Err(updated.error);
      }
      outcome := built;
    }

    method Repair(key: Key, profile: Profile, id: Id, installs: bool, verifies: bool, listed: seq<Key>)
      returns (outcome: Result<StateFile, StoreError>)
      requires forall k :: k in listed <==> k in store.quarantine
      requires forall i, j | 0 <= i < j < |listed| :: listed[i] != listed[j]
      modifies this
      ensures var run := OverlayStore.Repair(rules, old(store), key, profile, id, installs, verifies);
              Did(run.steps) && outcome == run.outcome
    {
      hide OverlayStore.Replay, OverlayStore.QuarantineCurrent, Reason;
      ghost var s := store;
      if !Reason(key.reason) {
        return Err(InvalidReason);
      }
      var retry := FindRetry(key.reason, listed);
      if retry.Err? {
        return Err(retry.error);
      }
      if retry.value.Some? {
        outcome := Replay(retry.value.value, profile, id, installs, verifies);
        return;
      }
      var moved := QuarantineCurrent(key, profile);
      if moved.Err? {
        return Err(moved.error);
      }
      ghost var steps, s1 := OverlayStore.QuarantineCurrent(rules, s, key, profile).steps, store;
      QuarantineEnds(rules, s, key, profile);
      outcome := Replay(key, profile, id, installs, verifies);
      LastOfBoth(s, steps, OverlayStore.Replay(rules, s1, key, profile, id, installs, verifies).steps);
    }
  }

  lemma QuarantineEnds(rules: Rules, s: Store, key: Key, profile: Profile)
    requires OverlayStore.QuarantineCurrent(rules, s, key, profile).outcome.Ok?
    ensures var q := Last(s, OverlayStore.QuarantineCurrent(rules, s, key, profile).steps).quarantine;
            key in q && q[key].generation.Some?
  {
    hide Unfit;
  }

  lemma {:induction false} HealthyMore(s: Store, listed: seq<Id>, id: Id)
    ensures HealthyOnes(s, listed + [id]) == HealthyOnes(s, listed) + HealthyOnes(s, [id])
  {
    if listed == [] {
      assert [] + [id] == [id];
    } else {
      assert (listed + [id])[1..] == listed[1..] + [id];
      HealthyMore(s, listed[1..], id);
    }
  }

  lemma {:induction false} DoomedMore(items: seq<(Id, Id)>, item: (Id, Id), keep: set<Id>)
    ensures Doomed(items + [item], keep) == Doomed(items, keep) + if item.0 in keep then [] else [item.1]
  {
    if items == [] {
      assert [] + [item] == [item] && [item][1..] == [];
    } else {
      assert (items + [item])[1..] == items[1..] + [item];
      DoomedMore(items[1..], item, keep);
    }
  }

  lemma {:induction false} RemoveOneMore(s: Store, ids: seq<Id>, id: Id)
    ensures var earlier := RemoveGenerations(s, ids);
            var last := Last(s, earlier);
            RemoveGenerations(s, ids + [id]) == earlier + [last.(generations := last.generations - {id})]
    decreases |ids|
  {
    if ids == [] {
      assert [] + [id] == [id] && [id][1..] == [];
    } else {
      var s' := s.(generations := s.generations - {ids[0]});
      assert (ids + [id])[1..] == ids[1..] + [id];
      RemoveOneMore(s', ids[1..], id);
    }
  }

  lemma {:induction false} GarbageMore(referenced: set<string>, listed: seq<string>, name: string)
    ensures Garbage(referenced, listed + [name])
         == Garbage(referenced, listed) + if name in referenced || !Digest(name) then [] else [name]
  {
    if listed == [] {
      assert [] + [name] == [name] && [name][1..] == [];
    } else {
      assert (listed + [name])[1..] == listed[1..] + [name];
      GarbageMore(referenced, listed[1..], name);
    }
  }

  lemma {:induction false} RemoveOneArtifact(s: Store, names: seq<string>, name: string)
    ensures var earlier := RemoveArtifacts(s, names);
            var last := Last(s, earlier);
            RemoveArtifacts(s, names + [name]) == earlier + [last.(artifacts := last.artifacts - {name})]
    decreases |names|
  {
    if names == [] {
      assert [] + [name] == [name] && [name][1..] == [];
    } else {
      var s' := s.(artifacts := s.artifacts - {names[0]});
      assert (names + [name])[1..] == names[1..] + [name];
      RemoveOneArtifact(s', names[1..], name);
    }
  }

  lemma NothingCollected(s: Store)
    ensures forall referenced :: Garbage(referenced, []) == []
    ensures RemoveArtifacts(s, []) == []
  {
  }

  function KeySet(keys: seq<Key>): set<Key> { set key | key in keys }

  lemma {:induction false} CountDistinct(keys: seq<Key>)
    requires forall i, j | 0 <= i < j < |keys| :: keys[i] != keys[j]
    ensures |KeySet(keys)| == |keys|
  {
    if keys != [] {
      var rest := keys[1..];
      CountDistinct(rest);
      OneKeyMore(keys[0], rest);
      assert keys == [keys[0]] + rest;
    }
  }

  lemma OneKeyMore(key: Key, rest: seq<Key>)
    ensures KeySet([key] + rest) == {key} + KeySet(rest)
  {
  }

  lemma QuarantineAgain(s: Store, key: Key, q: Quarantined, q': Quarantined)
    ensures s.quarantine[key := q][key := q'] == s.quarantine[key := q']
  {
  }

  lemma FitHasTexts(rules: Rules, g: Generation, profile: Profile)
    requires Unfit(rules, g, profile).None?
    ensures g.input.Some? && g.lock.Some? && g.state.Some?
  {
  }

  lemma LastIsFinished(rules: Rules, artifacts: Artifacts, r: Request)
    requires BuildWrites(rules, artifacts, r).error.None?
    ensures var contents := BuildWrites(rules, artifacts, r).contents;
            contents != [] && contents[|contents| - 1] == Finished(rules, r)
  {
    hide Backed;
  }
}
