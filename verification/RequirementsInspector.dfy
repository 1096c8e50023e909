/**
 The reading of requirements files as it runs: shared lists that grow, and the set of files being
 read, which every call gives back as it found it.
 */
module RequirementsInspector {
  import opened Wrappers
  import opened Requirements
  import R = Requirements

  class Inspector {
    const files: Files
    var inspected: Inspected
    var activeFiles: set<Path>

    constructor (files: Files)
      ensures this.files == files && inspected == NOTHING_INSPECTED && activeFiles == {}
    {
      this.files, inspected, activeFiles := files, NOTHING_INSPECTED, {};
    }

    method InspectOne(requirement: Requirement) returns (error: Option<PolicyError>)
      modifies this`inspected
      ensures var effect := R.InspectOne(requirement);
              if effect.Err? then error == Some(effect.error)
              else error.None? && inspected == Add(old(inspected), effect.value)
    {
      var effect := R.InspectOne(requirement);
      if effect.Err? {
        return Some(effect.error);
      }
      inspected := Add(inspected, effect.value);
      error := None;
    }

    /** Reads a file and all it includes; the set of files being read is always restored. */
    method InspectFile(path: Path) returns (error: Option<PolicyError>)
      modifies this
      ensures activeFiles == old(activeFiles)
      ensures var effects := R.InspectFile(files, path, old(activeFiles));
              if effects.Err? then error == Some(effects.error)
              else error.None? && inspected == AddAll(old(inspected), effects.value)
      decreases |files.Keys - activeFiles|, 1, 0
    {
      hide R.InspectLines;
      if path !in files {
        return Some(NotAFile(path));
      }
      if path in activeFiles {
        return Some(Cycle(path));
      }
      if files[path].None? {
        return Some(Unreadable(path));
      }
      SmallerSet(files.Keys - (activeFiles + {path}), files.Keys - activeFiles);
      activeFiles := activeFiles + {path};
      error := ReadLines(files[path].value);
      activeFiles := activeFiles - {path};
    }

    method ReadLines(lines: seq<Line>) returns (error: Option<PolicyError>)
      modifies this
      ensures activeFiles == old(activeFiles)
      ensures var effects := R.InspectLines(files, lines, old(activeFiles));
              if effects.Err? then error == Some(effects.error)
              else error.None? && inspected == AddAll(old(inspected), effects.value)
      decreases |files.Keys - activeFiles|, 2
    {
      hide R.InspectFile, R.InspectOne, AddAll, Add;
      ghost var start, active := inspected, activeFiles;
      ghost var done: seq<Effect> := [];
      AddOne(start, Nothing);
      StartsToRead(lines, active);
      assert lines[0..] == lines;
      for k := 0 to |lines|
        invariant activeFiles == active && inspected == AddAll(start, done)
        invariant Reads(lines, done, lines[k..], active)
      {
        ghost var first := R.InspectLine(files, lines[k], active);
        assert lines[k..] == [lines[k]] + lines[k + 1..];
        ReadsMore(lines, done, lines[k], lines[k + 1..], active);
        error := ReadLine(lines[k]);
        if error.Some? {
          return;
        }
        AddBoth(start, done, first.value);
        done := done + first.value;
      }
      assert lines[|lines|..] == [] && done + [] == done;
      error := None;
    }

    method ReadLine(line: Line) returns (error: Option<PolicyError>)
      modifies this
      ensures activeFiles == old(activeFiles)
      ensures var effects := R.InspectLine(files, line, old(activeFiles));
              if effects.Err? then error == Some(effects.error)
              else error.None? && inspected == AddAll(old(inspected), effects.value)
      decreases |files.Keys - activeFiles|, 1, 1
    {
      hide R.InspectFile, R.InspectOne, AddAll, Add;
      AddOne(inspected, Nothing);
      match line
      case Include(target) =>
        if target.None? {
          return Some(NotAllowed);
        }
        error := InspectFile(target.value);
      case Source(option) =>
        if option != "" {
          AddOne(inspected, Resolver(option));
          inspected := Add(inspected, Resolver(option));
        }
        error := None;
      case Refused => error := Some(NotAllowed);
      case Require(requirement) =>
        ghost var effect := R.InspectOne(requirement);
        if effect.Ok? {
          AddOne(inspected, effect.value);
        }
        error := InspectOne(requirement);
    }

    /** Requirements given directly come first, then the files; the first refusal ends it. */
    method InspectRequirements(requirements: seq<Requirement>, paths: seq<Path>) returns (error: Option<PolicyError>)
      modifies this
      ensures activeFiles == old(activeFiles)
      ensures var effects := R.InspectLines(files, GivenLines(requirements, paths), old(activeFiles));
              if effects.Err? then error == Some(effects.error)
              else error.None? && inspected == AddAll(old(inspected), effects.value)
    {
      hide R.InspectFile, R.InspectOne, AddAll, Add;
      ghost var start, active, lines := inspected, activeFiles, GivenLines(requirements, paths);
      ghost var done: seq<Effect> := [];
      AddOne(start, Nothing);
      StartsToRead(lines, active);
      assert requirements[0..] == requirements && paths[0..] == paths;
      for k := 0 to |requirements|
        invariant activeFiles == active && inspected == AddAll(start, done)
        invariant Reads(lines, done, GivenLines(requirements[k..], paths), active)
      {
        ghost var effect := R.InspectOne(requirements[k]);
        assert requirements[k..][1..] == requirements[k + 1..];
        ReadsMore(lines, done, Require(requirements[k]), GivenLines(requirements[k + 1..], paths), active);
        if effect.Ok? {
          AddOne(inspected, effect.value);
          AddBoth(start, done, [effect.value]);
        }
        error := InspectOne(requirements[k]);
        if error.Some? {
          return;
        }
        done := done + [effect.value];
      }
      assert requirements[|requirements|..] == [];
      for k := 0 to |paths|
        invariant activeFiles == active && inspected == AddAll(start, done)
        invariant Reads(lines, done, GivenLines([], paths[k..]), active)
      {
        ghost var effects := R.InspectFile(files, paths[k], active);
        assert paths[k..][1..] == paths[k + 1..];
        ReadsMore(lines, done, Include(Some(paths[k])), GivenLines([], paths[k + 1..]), active);
        error := InspectFile(paths[k]);
        if error.Some? {
          return;
        }
        AddBoth(start, done, effects.value);
        done := done + effects.value;
      }
      assert paths[|paths|..] == [] && done + [] == done;
      error := None;
    }

    lemma StartsToRead(lines: seq<Line>, active: set<Path>)
      ensures Reads(lines, [], lines, active)
    {
      hide R.InspectLines;
      var all := R.InspectLines(files, lines, active);
      assert all.Ok? ==> [] + all.value == all.value;
    }

    /** The lines come to what was done so far and what the rest of them comes to. */
    ghost predicate Reads(lines: seq<Line>, done: seq<Effect>, rest: seq<Line>, active: set<Path>) {
      var left := R.InspectLines(files, rest, active);
      R.InspectLines(files, lines, active) == if left.Err? then left else Ok(done + left.value)
    }

    /** One more line: it is refused and so are the lines, or its effects are added. */
    lemma ReadsMore(lines: seq<Line>, done: seq<Effect>, line: Line, rest: seq<Line>, active: set<Path>)
      requires Reads(lines, done, [line] + rest, active)
      ensures var first := R.InspectLine(files, line, active);
              if first.Err? then R.InspectLines(files, lines, active) == Err(first.error)
              else Reads(lines, done + first.value, rest, active)
    {
      hide R.InspectFile, R.InspectOne;
      var first, left := R.InspectLine(files, line, active), R.InspectLines(files, rest, active);
      assert ([line] + rest)[1..] == rest;
      if first.Ok? && left.Ok? {
        assert done + (first.value + left.value) == done + first.value + left.value;
      }
    }
  }

  /** What is given on the command line, as the lines of a file would be. */
  function GivenLines(requirements: seq<Requirement>, paths: seq<Path>): seq<Line> {
    if requirements != [] then [Require(requirements[0])] + GivenLines(requirements[1..], paths)
    else if paths != [] then [Include(Some(paths[0]))] + GivenLines([], paths[1..])
    else []
  }

  /** Those lines are the requirements and the includes of the files, and nothing else. */
  lemma {:induction false} GivenAre(requirements: seq<Requirement>, paths: seq<Path>)
    ensures forall line ::
              line in GivenLines(requirements, paths) <==>
              || (line.Require? && line.requirement in requirements)
              || (line.Include? && line.target.Some? && line.target.value in paths)
    decreases |requirements|, |paths|
  {
    if requirements != [] {
      GivenAre(requirements[1..], paths);
    } else if paths != [] {
      GivenAre([], paths[1..]);
    }
  }
}
