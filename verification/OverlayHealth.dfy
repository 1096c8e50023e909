/**
 Marking a generation healthy: which generations are pruned, which artifacts are collected, and
 why the current generation and its wheels survive.
 */
module OverlayHealth {
  import opened Wrappers
  import opened OverlayLock
  import opened OverlayStore
  import opened OverlaySafety

  // Sorting

  predicate StrictlyAscends(items: seq<(Id, Id)>) {
    forall i, j | 0 <= i < j < |items| :: items[i].0 < items[j].0
  }

  predicate DistinctIds(items: seq<(Id, Id)>) {
    forall i, j | 0 <= i < j < |items| :: items[i].0 != items[j].0
  }

  lemma {:induction false} InsertHas(item: (Id, Id), sorted: seq<(Id, Id)>)
    ensures forall x :: x in InsertById(item, sorted) <==> x == item || x in sorted
  {
    if sorted != [] && item.0 > sorted[0].0 {
      InsertHas(item, sorted[1..]);
      assert sorted == [sorted[0]] + sorted[1..];
    }
  }

  lemma {:induction false} InsertAscends(item: (Id, Id), sorted: seq<(Id, Id)>)
    requires StrictlyAscends(sorted) && forall k | 0 <= k < |sorted| :: sorted[k].0 != item.0
    ensures StrictlyAscends(InsertById(item, sorted))
  {
    if sorted != [] && item.0 > sorted[0].0 {
      var rest := InsertById(item, sorted[1..]);
      InsertAscends(item, sorted[1..]);
      InsertHas(item, sorted[1..]);
      forall j | 0 <= j < |rest| ensures sorted[0].0 < rest[j].0 {
        assert rest[j] in rest;
      }
    }
  }

  lemma {:induction false} SortAscends(items: seq<(Id, Id)>)
    requires DistinctIds(items)
    ensures StrictlyAscends(SortById(items))
    ensures forall x :: x in SortById(items) <==> x in items
  {
    if items != [] {
      var rest := SortById(items[1..]);
      SortAscends(items[1..]);
      forall k | 0 <= k < |rest| ensures rest[k].0 != items[0].0 {
        assert rest[k] in items[1..];
        var j :| 0 <= j < |items[1..]| && items[1..][j] == rest[k];
        assert items[j + 1] == rest[k];
      }
      InsertAscends(items[0], rest);
      InsertHas(items[0], rest);
      assert items == [items[0]] + items[1..];
    }
  }

  // What is healthy

  /** The listing names every generation directory, and every artifact directory, once. */
  ghost predicate Lists(s: Store, listing: Listing) {
    && (forall id: Id :: id in listing.generations <==> id in s.generations)
    && (forall i, j | 0 <= i < j < |listing.generations| :: listing.generations[i] != listing.generations[j])
    && (forall d :: d in listing.artifacts <==> d in s.artifacts)
  }

  function HealthyIds(s: Store): set<Id> {
    set id | id in s.generations && Healthy(s.generations[id])
  }

  lemma {:induction false} HealthyOnesAre(s: Store, listed: seq<Id>)
    requires IdsMatch(s)
    requires forall i, j | 0 <= i < j < |listed| :: listed[i] != listed[j]
    ensures var found := HealthyOnes(s, listed);
            && (forall id: Id :: (id, id) in found <==> id in listed && id in HealthyIds(s))
            && (forall k | 0 <= k < |found| :: found[k].0 == found[k].1)
            && DistinctIds(found)
  {
    if listed != [] {
      HealthyOnesAre(s, listed[1..]);
      var rest, found := HealthyOnes(s, listed[1..]), HealthyOnes(s, listed);
      assert listed == [listed[0]] + listed[1..];
      if found != rest {
        forall j | 0 <= j < |rest| ensures rest[j].0 != listed[0] {
          assert (rest[j].0, rest[j].0) in rest;
        }
        DistinctWithFirst((listed[0], listed[0]), rest);
      }
    }
  }

  lemma DistinctWithFirst(item: (Id, Id), rest: seq<(Id, Id)>)
    requires DistinctIds(rest) && forall j | 0 <= j < |rest| :: rest[j].0 != item.0
    ensures DistinctIds([item] + rest)
  {
  }

  /** What pruning works on: the healthy generations in the order of their IDs. */
  function Candidates(s: Store, listing: Listing): seq<(Id, Id)> {
    SortById(HealthyOnes(s, listing.generations))
  }

  predicate OwnIds(items: seq<(Id, Id)>) {
    forall k | 0 <= k < |items| :: items[k].0 == items[k].1
  }

  lemma CandidatesAre(s: Store, listing: Listing)
    requires IdsMatch(s) && Lists(s, listing)
    ensures var sorted := Candidates(s, listing);
            && StrictlyAscends(sorted) && OwnIds(sorted)
            && (forall id: Id :: (id, id) in sorted <==> id in HealthyIds(s))
            && IdsOf(sorted) == HealthyIds(s)
  {
    hide Healthy;
    var found := HealthyOnes(s, listing.generations);
    var sorted := Candidates(s, listing);
    HealthyOnesAre(s, listing.generations);
    SortAscends(found);
    forall k | 0 <= k < |sorted| ensures sorted[k].0 == sorted[k].1 {
      assert sorted[k] in found;
    }
    IdsOfOwn(sorted);
    assert forall id: Id :: (id, id) in sorted <==> id in HealthyIds(s);
  }

  lemma IdsOfOwn(items: seq<(Id, Id)>)
    requires OwnIds(items)
    ensures forall id: Id :: id in IdsOf(items) <==> (id, id) in items
  {
    forall id: Id ensures id in IdsOf(items) <==> (id, id) in items {
      if (id, id) in items {
        var k :| 0 <= k < |items| && items[k] == (id, id);
        assert items[k].0 == id;
      }
      if id in IdsOf(items) {
        var k :| 0 <= k < |items| && items[k].0 == id;
        assert items[k] == (id, id);
      }
    }
  }

  // The two that are kept

  function Larger(ids: set<Id>, id: Id): set<Id> { set g | g in ids && g > id }

  /** The generations with fewer than two larger ones. */
  function TopTwo(ids: set<Id>): set<Id> { set id | id in ids && |Larger(ids, id)| < 2 }

  function IdsFrom(items: seq<(Id, Id)>, n: nat): set<Id>
    requires n <= |items|
  {
    set k | n <= k < |items| :: items[k].0
  }

  lemma {:induction false} IdsFromCount(items: seq<(Id, Id)>, n: nat)
    requires n <= |items| && StrictlyAscends(items)
    ensures |IdsFrom(items, n)| == |items| - n
    decreases |items| - n
  {
    if n < |items| {
      IdsFromCount(items, n + 1);
      assert IdsFrom(items, n) == {items[n].0} + IdsFrom(items, n + 1);
      assert items[n].0 !in IdsFrom(items, n + 1);
    } else {
      assert IdsFrom(items, n) == {};
    }
  }

  function FirstKept(items: seq<(Id, Id)>): nat { if |items| <= 2 then 0 else |items| - 2 }

  lemma LastTwoAreFrom(items: seq<(Id, Id)>)
    ensures IdsOf(LastTwo(items)) == IdsFrom(items, FirstKept(items))
  {
    var n, last := FirstKept(items), LastTwo(items);
    if |items| > 2 {
      assert last == [items[n], items[n + 1]];
      TwoIds(last);
      assert IdsFrom(items, n) == {items[n].0, items[n + 1].0};
    } else {
      assert IdsOf(items) == IdsFrom(items, 0);
    }
  }

  lemma TwoIds(items: seq<(Id, Id)>)
    requires |items| == 2
    ensures IdsOf(items) == {items[0].0, items[1].0}
  {
  }

  lemma TopIsLate(items: seq<(Id, Id)>, k: nat)
    requires StrictlyAscends(items) && k < |items|
    ensures items[k].0 in TopTwo(IdsOf(items)) <==> k >= FirstKept(items)
  {
    LargerAreLater(items, k);
    IdsFromCount(items, k + 1);
    assert items[k].0 in IdsOf(items);
  }

  /** The last two of the sorted list are the two with the largest IDs. */
  lemma LastTwoAreTop(items: seq<(Id, Id)>)
    requires StrictlyAscends(items)
    ensures IdsOf(LastTwo(items)) == TopTwo(IdsOf(items))
    ensures |IdsOf(LastTwo(items))| <= 2
  {
    hide TopTwo;
    var n := FirstKept(items);
    LastTwoAreFrom(items);
    IdsFromCount(items, n);
    forall id ensures id in IdsFrom(items, n) <==> id in TopTwo(IdsOf(items)) {
      TopAreHealthy(IdsOf(items));
      if id in IdsOf(items) {
        var k :| 0 <= k < |items| && items[k].0 == id;
        TopIsLate(items, k);
        if id in IdsFrom(items, n) {
          var j :| n <= j < |items| && items[j].0 == id;
          assert j == k;
        }
      }
    }
  }

  lemma TopAreHealthy(ids: set<Id>)
    ensures TopTwo(ids) <= ids
  {
  }

  lemma LargerAreLater(items: seq<(Id, Id)>, k: nat)
    requires k < |items| && StrictlyAscends(items)
    ensures Larger(IdsOf(items), items[k].0) == IdsFrom(items, k + 1)
  {
    forall id ensures id in Larger(IdsOf(items), items[k].0) <==> id in IdsFrom(items, k + 1) {
      if id in Larger(IdsOf(items), items[k].0) {
        var j :| 0 <= j < |items| && items[j].0 == id;
        assert j > k;
      }
    }
  }

  // Removal

  lemma {:induction false} DoomedAre(items: seq<(Id, Id)>, keep: set<Id>)
    requires OwnIds(items)
    ensures forall id: Id :: id in Doomed(items, keep) <==> (id, id) in items && id !in keep
  {
    if items != [] {
      DoomedAre(items[1..], keep);
      assert items == [items[0]] + items[1..];
    }
  }

  function SetOf<T>(items: seq<T>): set<T> { set x | x in items }

  lemma FirstOfSet<T>(items: seq<T>)
    requires items != []
    ensures SetOf(items) == {items[0]} + SetOf(items[1..])
  {
    assert items == [items[0]] + items[1..];
  }

  lemma WithoutBoth<K, V>(m: map<K, V>, key: K, keys: set<K>)
    ensures (m - {key}) - keys == m - ({key} + keys)
  {
  }

  lemma {:induction false} RemovedGenerations(s: Store, ids: seq<Id>)
    ensures var steps := RemoveGenerations(s, ids);
            && Last(s, steps) == s.(generations := s.generations - SetOf(ids))
            && (forall k | 0 <= k < |steps| :: PartlyPruned(s, steps[k], SetOf(ids)))
    decreases |ids|
  {
    if ids == [] {
      assert s.generations - SetOf(ids) == s.generations;
    } else {
      var s' := s.(generations := s.generations - {ids[0]});
      var rest := RemoveGenerations(s', ids[1..]);
      RemovedGenerations(s', ids[1..]);
      FirstOfSet(ids);
      WithoutBoth(s.generations, ids[0], SetOf(ids[1..]));
      assert Last(s, RemoveGenerations(s, ids)) == Last(s', rest);
    }
  }

  /** Some of the doomed generations are gone, and nothing else happened. */
  predicate PartlyPruned(s: Store, x: Store, doomed: set<Id>) {
    && x == s.(generations := x.generations)
    && (forall id | id in x.generations :: id in s.generations && x.generations[id] == s.generations[id])
    && (forall id | id in s.generations && id !in doomed :: id in x.generations)
  }

  lemma {:induction false} GarbageIs(referenced: set<string>, listed: seq<string>)
    ensures forall d :: d in Garbage(referenced, listed) <==> d in listed && d !in referenced && Digest(d)
  {
    if listed != [] {
      GarbageIs(referenced, listed[1..]);
      assert listed == [listed[0]] + listed[1..];
    }
  }

  /** Some of the garbage is gone, and nothing else happened. */
  predicate PartlyCollected(s: Store, x: Store, garbage: set<string>) {
    && x == s.(artifacts := x.artifacts)
    && (forall d | d in x.artifacts :: d in s.artifacts && x.artifacts[d] == s.artifacts[d])
    && (forall d | d in s.artifacts && d !in garbage :: d in x.artifacts)
  }

  lemma {:induction false} RemovedArtifacts(s: Store, names: seq<string>)
    ensures var steps := RemoveArtifacts(s, names);
            && Last(s, steps) == s.(artifacts := s.artifacts - SetOf(names))
            && (forall k | 0 <= k < |steps| :: PartlyCollected(s, steps[k], SetOf(names)))
    decreases |names|
  {
    if names == [] {
      assert s.artifacts - SetOf(names) == s.artifacts;
    } else {
      var s' := s.(artifacts := s.artifacts - {names[0]});
      var rest := RemoveArtifacts(s', names[1..]);
      RemovedArtifacts(s', names[1..]);
      FirstOfSet(names);
      WithoutBoth(s.artifacts, names[0], SetOf(names[1..]));
      assert Last(s, RemoveArtifacts(s, names)) == Last(s', rest);
    }
  }

  // Marking, pruning, collecting

  lemma MirrorOnlyMirrors(s: Store, id: Id)
    requires id in s.generations
    ensures var run := MirrorMetadata(s, id);
            && (forall k | 0 <= k < |run.steps| :: run.steps[k] == s.(mirror := run.steps[k].mirror))
            && (run.outcome.Ok? <==>
                  s.generations[id].input.Some? && s.generations[id].lock.Some? && s.generations[id].state.Some?)
            && (run.outcome.Ok? ==>
                  && run.steps != []
                  && Last(s, run.steps).mirror
                     == Mirror(s.generations[id].input, s.generations[id].lock, s.generations[id].state))
  {
  }

  /** A step of marking: the generation may be healthy now, and the mirror may have changed. */
  predicate Marked(s: Store, x: Store, id: Id)
    requires id in s.generations && s.generations[id].state.Some?
  {
    var g := s.generations[id];
    x == s.(
      generations := s.generations[id := g.(state := Some(g.state.value.(healthy := true)))], mirror := x.mirror)
  }

  /** A generation that was not healthy before is mirrored as it is now. */
  predicate FreshlyMirrored(s: Store, x: Store, id: Id)
    requires id in s.generations && s.generations[id].state.Some?
  {
    var g := s.generations[id];
    !Healthy(g) ==> x.mirror == Mirror(g.input, g.lock, Some(g.state.value.(healthy := true)))
  }

  lemma MarkMarks(s: Store, id: Id)
    requires id in s.generations && s.generations[id].state.Some?
    ensures var run := Mark(s, id);
            && (forall k | 0 <= k < |run.steps| :: Marked(s, run.steps[k], id))
            && (run.outcome.Ok? ==>
                  && FreshlyMirrored(s, Last(s, run.steps), id) && Marked(s, Last(s, run.steps), id)
                  && run.outcome.value == s.generations[id].state.value.(healthy := true))
  {
    var g := s.generations[id];
    var marked := Put(s, id, g.(state := Some(g.state.value.(healthy := true))));
    MirrorOnlyMirrors(marked, id);
    if g.state.value.healthy {
      assert marked == s;
    }
  }

  lemma SafeOnceMarked(rules: Rules, s: Store, x: Store, id: Id)
    requires Safe(rules, s) && s.current == Some(id) && id in s.generations
    requires Complete(rules, s.generations[id], id) && Marked(s, x, id)
    ensures Safe(rules, x)
  {
    hide Backed;
    forall a, g ensures Holds(x, a, g) <==> Holds(s, a, g) {
    }
  }

  /** The invariant survives the loss of anything but the current generation. */
  lemma SafeWhilePruning(rules: Rules, s: Store, x: Store, doomed: set<Id>)
    requires Safe(rules, s) && PartlyPruned(s, x, doomed)
    requires s.current.Some? && s.current.value in s.generations && s.current.value !in doomed
    ensures Safe(rules, x)
  {
    hide Good;
    forall a, g ensures Holds(x, a, g) <==> Holds(s, a, g) {
    }
  }

  /** It survives the loss of artifacts the current lock does not name. */
  lemma SafeWhileCollecting(rules: Rules, s: Store, x: Store, garbage: set<string>)
    requires Safe(rules, s) && PartlyCollected(s, x, garbage)
    requires s.current.Some? && s.current.value in s.generations
    requires forall d | d in garbage :: d !in DigestsOf(LockOf(rules, s, s.current.value))
    ensures Safe(rules, x)
  {
    hide Parse;
    var id := s.current.value;
    forall a, g ensures Holds(x, a, g) <==> Holds(s, a, g) {
    }
    StillBacked(rules, s, x, garbage, id);
  }

  lemma StillBacked(rules: Rules, s: Store, x: Store, garbage: set<string>, id: Id)
    requires PartlyCollected(s, x, garbage) && id in s.generations && s.generations[id].lock.Some?
    requires Backed(rules, s.artifacts, s.generations[id].lock.value)
    requires forall d | d in garbage :: d !in DigestsOf(LockOf(rules, s, id))
    ensures Backed(rules, x.artifacts, s.generations[id].lock.value)
  {
    hide Parse;
    var wheels := LockOf(rules, s, id);
    forall k | 0 <= k < |wheels| ensures Present(rules, x.artifacts, wheels[k]) {
      assert Present(rules, s.artifacts, wheels[k]);
      assert wheels[k].digest in DigestsOf(wheels);
    }
  }

  /** The digest directories nothing in `keep` refers to. */
  function GarbageSet(rules: Rules, s: Store, keep: set<Id>): set<string> {
    set d | d in s.artifacts && d !in Referenced(rules, s, keep) && Digest(d)
  }

  lemma CollectIsExact(rules: Rules, s: Store, keep: set<Id>, listed: seq<string>)
    requires forall d :: d in listed <==> d in s.artifacts
    ensures var run := Collect(rules, s, keep, listed);
            && (run.outcome.Ok? <==> forall id | id in keep :: LockReadable(rules, s, id))
            && (run.outcome.Err? ==> run.steps == [])
            && (run.outcome.Ok? ==>
                  && Last(s, run.steps) == s.(artifacts := s.artifacts - GarbageSet(rules, s, keep))
                  && forall k | 0 <= k < |run.steps| :: PartlyCollected(s, run.steps[k], GarbageSet(rules, s, keep)))
  {
    hide Digest, Referenced, LockReadable, PartlyCollected;
    var names := Garbage(Referenced(rules, s, keep), listed);
    GarbageIs(Referenced(rules, s, keep), listed);
    RemovedArtifacts(s, names);
    assert SetOf(names) == GarbageSet(rules, s, keep);
  }

  lemma PruneInTwo(rules: Rules, s: Store, listing: Listing)
    ensures var sorted := Candidates(s, listing);
            var keep := IdsOf(LastTwo(sorted));
            var removed := RemoveGenerations(s, Doomed(sorted, keep));
            var collected := Collect(rules, Last(s, removed), keep, listing.artifacts);
            var run := Prune(rules, s, listing);
            && run.steps == removed + collected.steps
            && run.outcome == collected.outcome
            && Last(s, run.steps) == Last(Last(s, removed), collected.steps)
  {
    hide Collect, LastTwo, Doomed, IdsOf, HealthyOnes, SortById;
    var sorted := Candidates(s, listing);
    var keep := IdsOf(LastTwo(sorted));
    var removed := RemoveGenerations(s, Doomed(sorted, keep));
    var collected := Collect(rules, Last(s, removed), keep, listing.artifacts);
    if collected.steps == [] {
      assert removed + collected.steps == removed;
    }
  }

  lemma DoomedAreTheRest(s: Store, listing: Listing)
    requires IdsMatch(s) && Lists(s, listing)
    ensures var sorted := Candidates(s, listing);
            var keep := TopTwo(HealthyIds(s));
            && IdsOf(LastTwo(sorted)) == keep && |keep| <= 2 && keep <= HealthyIds(s)
            && SetOf(Doomed(sorted, keep)) == HealthyIds(s) - keep
  {
    hide HealthyIds, TopTwo, LastTwo, IdsOf;
    var sorted := Candidates(s, listing);
    var keep := TopTwo(HealthyIds(s));
    CandidatesAre(s, listing);
    LastTwoAreTop(sorted);
    DoomedAre(sorted, keep);
    TopAreHealthy(HealthyIds(s));
  }

  function Pruned(s: Store): Store {
    s.(generations := s.generations - (HealthyIds(s) - TopTwo(HealthyIds(s))))
  }

  /**
   Pruning keeps the healthy generations with the two largest IDs, at most two, and every other
   generation that is not healthy; collection then keeps exactly the artifacts a kept lock names,
   and happens only if every kept lock is readable.
   */
  lemma PruneIsExact(rules: Rules, s: Store, listing: Listing)
    requires IdsMatch(s) && Lists(s, listing)
    ensures var keep := TopTwo(HealthyIds(s));
            var run := Prune(rules, s, listing);
            var garbage := GarbageSet(rules, Pruned(s), keep);
            && |keep| <= 2 && keep <= HealthyIds(s)
            && (run.outcome.Ok? <==> forall id | id in keep :: LockReadable(rules, s, id))
            && Last(s, run.steps)
               == (if run.outcome.Ok? then Pruned(s).(artifacts := s.artifacts - garbage) else Pruned(s))
            && (forall k | 0 <= k < |run.steps| ::
                  || PartlyPruned(s, run.steps[k], HealthyIds(s) - keep)
                  || (run.outcome.Ok? && PartlyCollected(Pruned(s), run.steps[k], garbage)))
  {
    hide HealthyIds, TopTwo, Digest, Referenced, LockReadable, Prune, Collect, LastTwo, IdsOf, Candidates,
         PartlyPruned, PartlyCollected, GarbageSet;
    var sorted := Candidates(s, listing);
    var keep := TopTwo(HealthyIds(s));
    DoomedAreTheRest(s, listing);
    PruneInTwo(rules, s, listing);
    var ids := Doomed(sorted, keep);
    RemovedGenerations(s, ids);
    var removed := RemoveGenerations(s, ids);
    assert Last(s, removed) == Pruned(s);
    CollectIsExact(rules, Pruned(s), keep, listing.artifacts);
    KeptAreReadable(rules, s, Pruned(s), keep);
  }

  lemma KeptAreReadable(rules: Rules, s: Store, pruned: Store, keep: set<Id>)
    requires forall id | id in keep && id in s.generations ::
               id in pruned.generations && pruned.generations[id] == s.generations[id]
    requires forall id | id in pruned.generations :: id in s.generations
    ensures forall id | id in keep :: LockReadable(rules, pruned, id) <==> LockReadable(rules, s, id)
  {
  }

  // The whole operation

  lemma MarkedKeeps(s: Store, x: Store, id: Id, listing: Listing)
    requires IdsMatch(s) && Lists(s, listing)
    requires id in s.generations && s.generations[id].state.Some? && (Marked(s, x, id) || x == s)
    ensures IdsMatch(x) && Lists(x, listing) && x.artifacts == s.artifacts
    ensures Marked(s, x, id) ==> HealthyIds(x) == HealthyIds(s) + {id}
  {
  }

  /** Marking the current generation, then pruning. */
  lemma MarkHealthyInTwo(rules: Rules, s: Store, listing: Listing)
    requires Resolve(s).Ok? && s.generations[s.current.value].state.Some?
    ensures var marked := Mark(s, s.current.value);
            var s1 := Last(s, marked.steps);
            var pruned := Prune(rules, s1, listing);
            var run := MarkHealthy(rules, s, listing);
            if marked.outcome.Err? then run == marked
            else
              && run.steps == marked.steps + pruned.steps
              && (run.outcome.Ok? <==> pruned.outcome.Ok?)
              && (run.outcome.Ok? ==> run.outcome == marked.outcome)
              && Last(s, run.steps) == Last(s1, pruned.steps)
  {
    hide Mark, Prune;
    var marked := Mark(s, s.current.value);
    var pruned := Prune(rules, Last(s, marked.steps), listing);
    if pruned.steps == [] {
      assert marked.steps + pruned.steps == marked.steps;
    }
  }

  /**
   What a successful marking of `id` leaves. The healthy generations are the two with the largest
   IDs among those healthy before and the current one; the current one is still there exactly when
   fewer than two healthy generations have larger IDs, changed in nothing but its health, which the
   mirror shows if it is new; every other generation is untouched; and the artifact directories are
   those that were there, less the digests no kept lock names.
   */
  ghost predicate Exact(rules: Rules, s: Store, x: Store, id: Id) {
    var keep := TopTwo(HealthyIds(s) + {id});
    && x.current == s.current == Some(id)
    && HealthyIds(x) == keep && |keep| <= 2
    && x.generations.Keys == s.generations.Keys - (HealthyIds(s) + {id} - keep)
    && (id in x.generations <==> |Larger(HealthyIds(s), id)| < 2)
    && (forall g | g in x.generations && g != id :: g in s.generations && x.generations[g] == s.generations[g])
    && (id in x.generations ==>
          && id in s.generations && s.generations[id].state.Some?
          && var state := s.generations[id].state.value.(healthy := true);
          && x.generations[id] == s.generations[id].(state := Some(state))
          && (!Healthy(s.generations[id]) ==>
                x.mirror == Mirror(s.generations[id].input, s.generations[id].lock, Some(state))))
    && (forall g | g in keep :: LockReadable(rules, x, g))
    && (forall d :: d in x.artifacts <==> d in s.artifacts && (!Digest(d) || d in Referenced(rules, x, keep)))
    && (forall d | d in x.artifacts :: x.artifacts[d] == s.artifacts[d])
  }

  /** A marking that succeeds is exact; one that fails removes no artifact. */
  lemma MarkingIsExact(rules: Rules, s: Store, listing: Listing)
    requires IdsMatch(s) && Lists(s, listing)
    ensures var run := MarkHealthy(rules, s, listing);
            && (run.outcome.Err? ==> forall k | 0 <= k < |run.steps| :: run.steps[k].artifacts == s.artifacts)
            && (run.outcome.Ok? ==> Resolve(s).Ok? && Exact(rules, s, Last(s, run.steps), Resolve(s).value))
  {
    hide HealthyIds, TopTwo, Digest, Referenced, LockReadable, Prune, MarkHealthy, Mark, PartlyCollected, Larger, Exact;
    if Resolve(s).Err? || s.generations[s.current.value].state.None? {
      NothingToMark(rules, s, listing);
    } else {
      var id := s.current.value;
      var s1 := Last(s, Mark(s, id).steps);
      MarkMarks(s, id);
      MarkHealthyInTwo(rules, s, listing);
      if Mark(s, id).outcome.Ok? {
        MarkedKeeps(s, s1, id, listing);
        PruneIsExact(rules, s1, listing);
        if Prune(rules, s1, listing).outcome.Ok? {
          ExactAfterMark(rules, s, s1, id, Last(s1, Prune(rules, s1, listing).steps));
        }
      }
    }
  }

  lemma NothingToMark(rules: Rules, s: Store, listing: Listing)
    requires Resolve(s).Err? || s.generations[s.current.value].state.None?
    ensures MarkHealthy(rules, s, listing).outcome.Err? && MarkHealthy(rules, s, listing).steps == []
  {
  }

  lemma ExactAfterMark(rules: Rules, s: Store, s1: Store, id: Id, x: Store)
    requires IdsMatch(s) && s.current == Some(id) && id in s.generations && s.generations[id].state.Some?
    requires Marked(s, s1, id) && FreshlyMirrored(s, s1, id) && HealthyIds(s1) == HealthyIds(s) + {id}
    requires var keep := TopTwo(HealthyIds(s1));
             && |keep| <= 2 && keep <= HealthyIds(s1)
             && (forall g | g in keep :: LockReadable(rules, s1, g))
             && x == Pruned(s1).(artifacts := s1.artifacts - GarbageSet(rules, Pruned(s1), keep))
    ensures Exact(rules, s, x, id)
  {
    hide Digest, Referenced, LockReadable, TopTwo;
    var keep := TopTwo(HealthyIds(s1));
    KeptAreReadable(rules, s1, x, keep);
    ReferencedSame(rules, Pruned(s1), x, keep);
    assert Larger(HealthyIds(s1), id) == Larger(HealthyIds(s), id);
    InTopTwo(HealthyIds(s1), id);
    assert HealthyIds(x) == keep by { PrunedHealthy(s1, x); }
  }

  lemma InTopTwo(ids: set<Id>, id: Id)
    ensures id in TopTwo(ids) <==> id in ids && |Larger(ids, id)| < 2
  {
  }

  lemma PrunedHealthy(s: Store, x: Store)
    requires x.generations == Pruned(s).generations && TopTwo(HealthyIds(s)) <= HealthyIds(s)
    ensures HealthyIds(x) == TopTwo(HealthyIds(s))
  {
    hide TopTwo;
  }

  lemma ReferencedSame(rules: Rules, a: Store, b: Store, ids: set<Id>)
    requires a.generations == b.generations
    ensures Referenced(rules, a, ids) == Referenced(rules, b, ids)
    ensures forall id :: LockReadable(rules, a, id) <==> LockReadable(rules, b, id)
  {
    hide DigestsOf;
    forall id: Id ensures LockOf(rules, a, id) == LockOf(rules, b, id) {
    }
    assert forall d :: d in Referenced(rules, a, ids) <==> d in Referenced(rules, b, ids);
  }

  /** When IDs grow, the current generation is the largest healthy one, so it is kept. */
  lemma CurrentIsKept(s: Store)
    requires HealthyAreOld(s) && s.current.Some? && s.current.value in HealthyIds(s)
    ensures s.current.value in TopTwo(HealthyIds(s))
  {
    assert Larger(HealthyIds(s), s.current.value) == {};
  }

  lemma CurrentIsComplete(rules: Rules, s: Store, id: Id)
    requires Safe(rules, s) && s.current == Some(id) && id in s.generations
    ensures Complete(rules, s.generations[id], id)
  {
  }

  lemma SafeIds(rules: Rules, s: Store)
    requires Safe(rules, s)
    ensures IdsMatch(s) && HealthyAreOld(s)
  {
  }

  /** Every step of a marking, of the pruning and of the collection keeps the invariant. */
  lemma MarkingIsSafe(rules: Rules, s: Store, listing: Listing)
    requires Safe(rules, s) && Lists(s, listing)
    ensures AllSafe(rules, MarkHealthy(rules, s, listing).steps)
  {
    hide Safe, MarkHealthy, Mark, Prune, HealthyIds, TopTwo, IdsMatch, HealthyAreOld, Complete, Lists, Marked;
    SafeIds(rules, s);
    if Resolve(s).Err? || s.generations[s.current.value].state.None? {
      NothingToMark(rules, s, listing);
    } else {
      var id := s.current.value;
      var marked := Mark(s, id);
      var s1 := Last(s, marked.steps);
      CurrentIsComplete(rules, s, id);
      MarkMarks(s, id);
      MarkHealthyInTwo(rules, s, listing);
      forall k | 0 <= k < |marked.steps| ensures Safe(rules, marked.steps[k]) {
        SafeOnceMarked(rules, s, marked.steps[k], id);
      }
      if marked.outcome.Ok? {
        MarkedKeeps(s, s1, id, listing);
        SafeOnceMarked(rules, s, s1, id);
        MarkedIsCurrent(s, s1, id);
        PruningIsSafe(rules, s1, listing);
      }
    }
  }

  lemma MarkedIsCurrent(s: Store, x: Store, id: Id)
    requires id in s.generations && s.generations[id].state.Some? && Marked(s, x, id)
    ensures x.current == s.current && id in x.generations && id in HealthyIds(x)
  {
  }

  lemma PruningIsSafe(rules: Rules, s: Store, listing: Listing)
    requires Safe(rules, s) && Lists(s, listing)
    requires s.current.Some? && s.current.value in HealthyIds(s)
    ensures AllSafe(rules, Prune(rules, s, listing).steps)
  {
    hide Safe, Prune, TopTwo, PartlyPruned, PartlyCollected, Referenced, Digest, LockReadable, Lists;
    SafeIds(rules, s);
    CurrentIsKept(s);
    PruneIsExact(rules, s, listing);
    var steps := Prune(rules, s, listing).steps;
    var keep := TopTwo(HealthyIds(s));
    var id := s.current.value;
    PrunedPartly(s);
    SafeWhilePruning(rules, s, Pruned(s), HealthyIds(s) - keep);
    forall d | d in GarbageSet(rules, Pruned(s), keep) ensures d !in DigestsOf(LockOf(rules, Pruned(s), id)) {
      KeptIsReferenced(rules, Pruned(s), keep, id, d);
    }
    forall k | 0 <= k < |steps| ensures Safe(rules, steps[k]) {
      if PartlyPruned(s, steps[k], HealthyIds(s) - keep) {
        SafeWhilePruning(rules, s, steps[k], HealthyIds(s) - keep);
      } else {
        SafeWhileCollecting(rules, Pruned(s), steps[k], GarbageSet(rules, Pruned(s), keep));
      }
    }
  }

  lemma PrunedPartly(s: Store)
    ensures PartlyPruned(s, Pruned(s), HealthyIds(s) - TopTwo(HealthyIds(s)))
  {
  }

  lemma KeptIsReferenced(rules: Rules, s: Store, keep: set<Id>, id: Id, d: string)
    requires id in keep && d !in Referenced(rules, s, keep)
    ensures d !in DigestsOf(LockOf(rules, s, id))
  {
    hide DigestsOf, LockOf;
  }
}
