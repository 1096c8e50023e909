/**
 Requirements files that include each other: a depth-first reading with a set of files being
 read, which is how include cycles are found.
 */
module Requirements {
  import opened Wrappers

  type Path = string

  /** A local directory or file a requirement points to. */
  datatype Local =
    | Outside | Directory(path: Path) | OtherFile
    | LocalWheel(wheel: Path, validName: bool, isProtected: bool)

  datatype Url = Git(exactCommit: bool) | FileUrl(local: Local) | Remote(httpsWheel: bool)

  /**
   A requirement as the packaging library reads it: whether it names a distribution of the parent
   image, whether its marker holds here, and whether its specifier admits the parent's version.
   */
  datatype Requirement =
    | Blank | Invalid | LocalPath(local: Local)
    | Named(text: string, name: string, ofParent: bool, marker: bool, url: Option<Url>, admitsParent: bool)

  /** A logical line; an include has the file it resolves to, None when it leads nowhere allowed. */
  datatype Line =
    | Include(target: Option<Path>) | Source(option: string) | Refused | Require(requirement: Requirement)

  /** The files of the project; None is one that cannot be read. */
  type Files = map<Path, Option<seq<Line>>>

  datatype Effect =
    | Nothing | Resolver(input: string) | External(name: string) | LocalInput(path: Path) | Vcs(input: string)

  datatype PolicyError = NotAFile(path: Path) | Cycle(path: Path) | Unreadable(path: Path) | NotAllowed

  function RecordLocal(local: Local): Result<Effect, PolicyError> {
    match local
    case Directory(path) => Ok(LocalInput(path))
    case LocalWheel(wheel, validName, isProtected) =>
      if validName && !isProtected then Ok(LocalInput(wheel)) else Err(NotAllowed)
    case _ => Err(NotAllowed)
  }

  function InspectOne(requirement: Requirement): Result<Effect, PolicyError> {
    match requirement
    case Blank => Ok(Nothing)
    case Invalid => Err(NotAllowed)
    case LocalPath(local) => RecordLocal(local)
    case Named(text, name, ofParent, marker, url, admitsParent) =>
      if !marker then Ok(Nothing)
      else if url.Some? then
        if ofParent then Err(NotAllowed)
        else
          (match url.value
           case Git(exactCommit) => if exactCommit then Ok(Vcs(text)) else Err(NotAllowed)
           case FileUrl(local) => RecordLocal(local)
           case Remote(httpsWheel) => if httpsWheel then Ok(Resolver(text)) else Err(NotAllowed))
      else if ofParent then if admitsParent then Ok(External(name)) else Err(NotAllowed)
      else Ok(Resolver(text))
  }

  function InspectFile(files: Files, path: Path, active: set<Path>): Result<seq<Effect>, PolicyError>
    decreases |files.Keys - active|, 1, 0
  {
    if path !in files then Err(NotAFile(path))
    else if path in active then Err(Cycle(path))
    else if files[path].None? then Err(Unreadable(path))
    else
      assert files.Keys - (active + {path}) < files.Keys - active;
      SmallerSet(files.Keys - (active + {path}), files.Keys - active);
      InspectLines(files, files[path].value, active + {path})
  }

  function InspectLines(files: Files, lines: seq<Line>, active: set<Path>): Result<seq<Effect>, PolicyError>
    decreases |files.Keys - active|, 2, |lines|
  {
    if lines == [] then Ok([])
    else
      var first := InspectLine(files, lines[0], active);
      if first.Err? then first
      else
        var rest := InspectLines(files, lines[1..], active);
        if rest.Err? then rest else Ok(first.value + rest.value)
  }

  function InspectLine(files: Files, line: Line, active: set<Path>): Result<seq<Effect>, PolicyError>
    decreases |files.Keys - active|, 1, 1
  {
    match line
    case Include(target) => if target.None? then Err(NotAllowed) else InspectFile(files, target.value, active)
    case Source(option) => Ok(if option == "" then [] else [Resolver(option)])
    case Refused => Err(NotAllowed)
    case Require(requirement) =>
      var effect := InspectOne(requirement);
      if effect.Err? then Err(effect.error) else Ok([effect.value])
  }

  lemma SmallerSet<T>(a: set<T>, b: set<T>)
    requires a < b
    ensures |a| < |b|
  {
    var rest := b - a;
    assert b == a + rest && a !! rest;
    assert rest != {};
  }

  // Includes as a graph

  predicate Includes(files: Files, a: Path, b: Path) {
    a in files && files[a].Some? && Include(Some(b)) in files[a].value
  }

  /** A way through the includes. */
  predicate Walk(files: Files, w: seq<Path>) {
    w != [] && forall k | 0 <= k < |w| - 1 :: Includes(files, w[k], w[k + 1])
  }

  predicate Repeats(w: seq<Path>) {
    exists i, j | 0 <= i < j < |w| :: w[i] == w[j]
  }

  /** A walk that meets the same file twice, or one that was being read already. */
  predicate Closes(w: seq<Path>, active: set<Path>) {
    Repeats(w) || exists k | 0 <= k < |w| :: w[k] in active
  }

  lemma {:induction false} IncludedIsRead(files: Files, lines: seq<Line>, active: set<Path>, target: Path)
    requires Include(Some(target)) in lines && InspectLines(files, lines, active).Ok?
    ensures InspectFile(files, target, active).Ok?
    decreases |lines|
  {
    hide InspectFile;
    if lines[0] != Include(Some(target)) {
      assert lines == [lines[0]] + lines[1..];
      IncludedIsRead(files, lines[1..], active, target);
    }
  }

  /** Accepting a file rules out every closing walk from it. */
  lemma {:induction false} AcceptedIsAcyclic(files: Files, path: Path, active: set<Path>, w: seq<Path>)
    requires InspectFile(files, path, active).Ok? && Walk(files, w) && w[0] == path
    ensures !Closes(w, active)
    decreases |w|
  {
    hide InspectLines;
    if |w| > 1 {
      IncludedIsRead(files, files[path].value, active + {path}, w[1]);
      forall k | 0 <= k < |w[1..]| - 1 ensures Includes(files, w[1..][k], w[1..][k + 1]) {
        assert Includes(files, w[k + 1], w[k + 2]);
      }
      AcceptedIsAcyclic(files, w[1], active + {path}, w[1..]);
      forall i, j | 0 <= i < j < |w| ensures w[i] != w[j] {
        assert w[j] == w[1..][j - 1];
        if i > 0 {
          assert w[i] == w[1..][i - 1];
        } else {
          assert w[1..][j - 1] !in active + {path};
        }
      }
      forall k | 0 <= k < |w| ensures w[k] !in active {
        assert k > 0 ==> w[k] == w[1..][k - 1];
      }
    }
  }

  /** A line that is no include may stand in an accepted file. */
  predicate AllowedLine(line: Line) {
    match line
    case Include(target) => target.Some?
    case Refused => false
    case Require(requirement) => InspectOne(requirement).Ok?
    case Source(_) => true
  }

  /** A file that can be read and holds nothing the policy refuses. */
  predicate AllowedFile(files: Files, path: Path) {
    && path in files && files[path].Some?
    && forall k | 0 <= k < |files[path].value| :: AllowedLine(files[path].value[k])
  }

  lemma {:induction false} AcceptedLines(files: Files, lines: seq<Line>, active: set<Path>, k: nat)
    requires k < |lines| && InspectLines(files, lines, active).Ok?
    ensures AllowedLine(lines[k])
    decreases |lines|
  {
    hide InspectFile;
    if k > 0 {
      AcceptedLines(files, lines[1..], active, k - 1);
    }
  }

  lemma {:induction false} AcceptedIsAllowed(files: Files, path: Path, active: set<Path>, w: seq<Path>)
    requires InspectFile(files, path, active).Ok? && Walk(files, w) && w[0] == path
    ensures AllowedFile(files, w[|w| - 1])
    decreases |w|
  {
    hide InspectLines, AllowedLine;
    if |w| > 1 {
      IncludedIsRead(files, files[path].value, active + {path}, w[1]);
      forall k | 0 <= k < |w[1..]| - 1 ensures Includes(files, w[1..][k], w[1..][k + 1]) {
        assert Includes(files, w[k + 1], w[k + 2]);
      }
      AcceptedIsAllowed(files, w[1], active + {path}, w[1..]);
    } else {
      forall k | 0 <= k < |files[path].value| ensures AllowedLine(files[path].value[k]) {
        AcceptedLines(files, files[path].value, active + {path}, k);
      }
    }
  }

  /** What an error says: where the walk that shows it ends. */
  predicate Shows(files: Files, w: seq<Path>, active: set<Path>, e: PolicyError)
    requires w != []
  {
    var last := w[|w| - 1];
    if e.Cycle? then last == e.path && (last in active || exists k | 0 <= k < |w| - 1 :: w[k] == last)
    else !AllowedFile(files, last)
  }

  lemma ShowsLater(files: Files, path: Path, tail: seq<Path>, active: set<Path>, e: PolicyError)
    requires tail != [] && Shows(files, tail, active + {path}, e)
    ensures Shows(files, [path] + tail, active, e)
  {
    var w := [path] + tail;
    assert w[|w| - 1] == tail[|tail| - 1] && w[0] == path;
    if e.Cycle? && e.path !in active && e.path != path {
      var k :| 0 <= k < |tail| - 1 && tail[k] == e.path;
      assert w[k + 1] == e.path;
    }
  }

  /** Every error is shown by a walk: to a file that may not be, or back to a file being read. */
  lemma {:induction false} ErrorIsShown(files: Files, path: Path, active: set<Path>) returns (w: seq<Path>)
    requires InspectFile(files, path, active).Err?
    ensures Walk(files, w) && w[0] == path && Shows(files, w, active, InspectFile(files, path, active).error)
    decreases |files.Keys - active|, 1, 0
  {
    hide InspectLines, AllowedLine;
    w := [path];
    if path in files && path !in active && files[path].Some? {
      SmallerSet(files.Keys - (active + {path}), files.Keys - active);
      var lines := files[path].value;
      var k, tail := ErrorBelow(files, lines, active + {path});
      if tail != [] {
        ShowsLater(files, path, tail, active, InspectFile(files, path, active).error);
        w := [path] + tail;
        forall k | 0 <= k < |w| - 1 ensures Includes(files, w[k], w[k + 1]) {
          if k > 0 {
            assert Includes(files, tail[k - 1], tail[k]);
          }
        }
      } else {
        assert !AllowedLine(lines[k]);
      }
    }
  }

  /** The line an error comes from, or a walk from a file that line includes. */
  lemma {:induction false} ErrorBelow(files: Files, lines: seq<Line>, active: set<Path>)
    returns (k: nat, w: seq<Path>)
    requires InspectLines(files, lines, active).Err?
    ensures k < |lines|
    ensures w == [] ==> !AllowedLine(lines[k]) && !InspectLines(files, lines, active).error.Cycle?
    ensures w != [] ==>
              Walk(files, w) && Include(Some(w[0])) in lines
              && Shows(files, w, active, InspectLines(files, lines, active).error)
    decreases |files.Keys - active|, 2, |lines|
  {
    hide InspectFile, Shows;
    if InspectLine(files, lines[0], active).Ok? {
      k, w := ErrorBelow(files, lines[1..], active);
      k := k + 1;
    } else if lines[0].Include? && lines[0].target.Some? {
      w := ErrorIsShown(files, lines[0].target.value, active);
      k := 0;
    } else {
      k, w := 0, [];
    }
  }

  /**
   A file is accepted exactly when no walk through the includes from it meets a file twice, and
   every file a walk reaches can be read and holds nothing the policy refuses. A reported cycle is
   one: a walk comes back to the file it names.
   */
  lemma AcceptedIffAcyclic(files: Files, path: Path)
    ensures InspectFile(files, path, {}).Ok? <==>
            forall w | Walk(files, w) && w[0] == path :: !Repeats(w) && AllowedFile(files, w[|w| - 1])
    ensures forall p :: InspectFile(files, path, {}) == Err(Cycle(p)) ==>
              exists w :: Walk(files, w) && w[0] == path && w[|w| - 1] == p && Repeats(w)
  {
    hide InspectFile, AllowedFile;
    if InspectFile(files, path, {}).Ok? {
      forall w | Walk(files, w) && w[0] == path ensures !Repeats(w) && AllowedFile(files, w[|w| - 1]) {
        AcceptedIsAcyclic(files, path, {}, w);
        AcceptedIsAllowed(files, path, {}, w);
      }
    } else {
      var w := ErrorIsShown(files, path, {});
      if InspectFile(files, path, {}).error.Cycle? {
        var k :| 0 <= k < |w| - 1 && w[k] == w[|w| - 1];
        assert Repeats(w);
      }
    }
  }

  // The result is the text with every include replaced

  /** Textual inclusion to a depth, knowing nothing of the files being read. */
  function Expand(files: Files, lines: seq<Line>, depth: nat): seq<Effect>
    decreases depth, |lines|
  {
    if lines == [] then []
    else ExpandLine(files, lines[0], depth) + Expand(files, lines[1..], depth)
  }

  function ExpandLine(files: Files, line: Line, depth: nat): seq<Effect>
    decreases depth, 0
  {
    match line
    case Include(target) =>
      if depth == 0 || target.None? || target.value !in files || files[target.value].None? then []
      else Expand(files, files[target.value].value, depth - 1)
    case Source(option) => if option == "" then [] else [Resolver(option)]
    case Refused => []
    case Require(requirement) =>
      var effect := InspectOne(requirement);
      if effect.Err? then [] else [effect.value]
  }

  /** An accepted file is read as if each include stood for the lines of its file, in order. */
  lemma {:induction false} AcceptedIsExpanded(files: Files, path: Path, active: set<Path>, depth: nat)
    requires InspectFile(files, path, active).Ok? && depth >= |files.Keys - active|
    ensures depth > 0 && InspectFile(files, path, active).value == Expand(files, files[path].value, depth - 1)
    decreases |files.Keys - active|, 1, 0
  {
    hide InspectLines, Expand;
    SmallerSet(files.Keys - (active + {path}), files.Keys - active);
    LinesAreExpanded(files, files[path].value, active + {path}, depth - 1);
  }

  lemma {:induction false} LinesAreExpanded(files: Files, lines: seq<Line>, active: set<Path>, depth: nat)
    requires InspectLines(files, lines, active).Ok? && depth >= |files.Keys - active|
    ensures InspectLines(files, lines, active).value == Expand(files, lines, depth)
    decreases |files.Keys - active|, 2, |lines|
  {
    hide InspectFile;
    if lines != [] {
      if lines[0].Include? {
        var target := lines[0].target.value;
        AcceptedIsExpanded(files, target, active, depth);
        TargetIsRead(files, target, active);
      }
      LinesAreExpanded(files, lines[1..], active, depth);
    }
  }

  lemma TargetIsRead(files: Files, target: Path, active: set<Path>)
    requires InspectFile(files, target, active).Ok?
    ensures target in files && files[target].Some?
  {
  }

  /** Files being read only matter to cycles: with fewer of them the same is accepted, and read the same. */
  lemma ActiveDoesNotMatter(files: Files, path: Path, active: set<Path>, fewer: set<Path>)
    requires InspectFile(files, path, active).Ok? && InspectFile(files, path, fewer).Ok?
    ensures InspectFile(files, path, active) == InspectFile(files, path, fewer)
  {
    var depth := |files.Keys - active| + |files.Keys - fewer|;
    AcceptedIsExpanded(files, path, active, depth);
    AcceptedIsExpanded(files, path, fewer, depth);
  }

  // The shared lists

  datatype Inspected = Inspected(resolver: seq<string>, external: set<string>, local: seq<Path>, vcs: seq<string>)

  function Add(i: Inspected, effect: Effect): Inspected {
    match effect
    case Nothing => i
    case Resolver(input) => i.(resolver := i.resolver + [input])
    case External(name) => i.(external := i.external + {name})
    case LocalInput(path) => i.(local := i.local + [path])
    case Vcs(input) => i.(vcs := i.vcs + [input])
  }

  function AddAll(i: Inspected, effects: seq<Effect>): Inspected
    decreases |effects|
  {
    if effects == [] then i else AddAll(Add(i, effects[0]), effects[1..])
  }

  lemma {:induction false} AddBoth(i: Inspected, a: seq<Effect>, b: seq<Effect>)
    ensures AddAll(i, a + b) == AddAll(AddAll(i, a), b)
    decreases |a|
  {
    if a == [] {
      assert a + b == b;
    } else {
      assert (a + b)[1..] == a[1..] + b;
      AddBoth(Add(i, a[0]), a[1..], b);
    }
  }

  lemma AddOne(i: Inspected, effect: Effect)
    ensures AddAll(i, [effect]) == Add(i, effect) && AddAll(i, []) == i
  {
    assert [effect][1..] == [];
  }

  const NOTHING_INSPECTED := Inspected([], {}, [], [])

  /** The lists hold what they held and what the effects say, and nothing else. */
  lemma {:induction false} AddsExactly(i: Inspected, effects: seq<Effect>)
    ensures var added := AddAll(i, effects);
            && (forall s :: s in added.resolver <==> s in i.resolver || Resolver(s) in effects)
            && (forall name :: name in added.external <==> name in i.external || External(name) in effects)
            && (forall path :: path in added.local <==> path in i.local || LocalInput(path) in effects)
            && (forall s :: s in added.vcs <==> s in i.vcs || Vcs(s) in effects)
    decreases |effects|
  {
    if effects != [] {
      AddsExactly(Add(i, effects[0]), effects[1..]);
      assert forall e :: e in effects <==> e == effects[0] || e in effects[1..];
    }
  }

  // What the lists hold comes from the lines the includes reach

  /** A line given, or a line of a file that a walk from a given include ends at. */
  ghost predicate Reached(files: Files, lines: seq<Line>, line: Line) {
    line in lines || exists w :: Walk(files, w) && Include(Some(w[0])) in lines && Holds(files, w[|w| - 1], line)
  }

  predicate Holds(files: Files, path: Path, line: Line) {
    path in files && files[path].Some? && line in files[path].value
  }

  /** What a line that is no include asks for. */
  predicate Gives(line: Line, e: Effect) {
    || (line.Source? && line.option != "" && e == Resolver(line.option))
    || (line.Require? && InspectOne(line.requirement) == Ok(e))
  }

  lemma ReachedThrough(files: Files, lines: seq<Line>, path: Path, line: Line)
    requires Include(Some(path)) in lines && path in files && files[path].Some?
    requires Reached(files, files[path].value, line)
    ensures Reached(files, lines, line)
  {
    if line in files[path].value {
      assert Walk(files, [path]) && Holds(files, [path][0], line);
    } else {
      var tail :| Walk(files, tail) && Include(Some(tail[0])) in files[path].value
        && Holds(files, tail[|tail| - 1], line);
      var w := [path] + tail;
      forall k | 0 <= k < |w| - 1 ensures Includes(files, w[k], w[k + 1]) {
        assert k > 0 ==> Includes(files, tail[k - 1], tail[k]);
      }
      assert Walk(files, w) && w[|w| - 1] == tail[|tail| - 1];
    }
  }

  lemma {:induction false} LineOf(files: Files, lines: seq<Line>, active: set<Path>, e: Effect) returns (line: Line)
    requires InspectLines(files, lines, active).Ok? && e in InspectLines(files, lines, active).value
    ensures Reached(files, lines, line) && Gives(line, e)
    decreases |files.Keys - active|, |lines|
  {
    hide InspectOne, InspectFile, Reached;
    if e !in InspectLine(files, lines[0], active).value {
      line := LineOf(files, lines[1..], active, e);
      ReachedLater(files, lines, line);
    } else if lines[0].Include? {
      var path := lines[0].target.value;
      AcceptedIsSmaller(files, path, active);
      line := LineOf(files, files[path].value, active + {path}, e);
      ReachedThrough(files, lines, path, line);
    } else {
      line := lines[0];
      ReachedHere(files, lines);
    }
  }

  lemma AcceptedIsSmaller(files: Files, path: Path, active: set<Path>)
    requires InspectFile(files, path, active).Ok?
    ensures path in files && files[path].Some?
    ensures InspectFile(files, path, active) == InspectLines(files, files[path].value, active + {path})
    ensures |files.Keys - (active + {path})| < |files.Keys - active|
  {
    hide InspectLines;
    assert path in files.Keys - active;
    SmallerSet(files.Keys - (active + {path}), files.Keys - active);
  }

  lemma ReachedHere(files: Files, lines: seq<Line>)
    requires lines != []
    ensures Reached(files, lines, lines[0])
  {
  }

  lemma ReachedLater(files: Files, lines: seq<Line>, line: Line)
    requires lines != [] && Reached(files, lines[1..], line)
    ensures Reached(files, lines, line)
  {
    if line !in lines[1..] {
      var w :| Walk(files, w) && Include(Some(w[0])) in lines[1..] && Holds(files, w[|w| - 1], line);
      assert Include(Some(w[0])) in lines;
    }
  }

  /** An included file has all its effects where it is included. */
  lemma {:induction false} IncludedEffects(files: Files, lines: seq<Line>, active: set<Path>, path: Path, e: Effect)
    requires Include(Some(path)) in lines && InspectLines(files, lines, active).Ok?
    requires InspectFile(files, path, active).Ok? && e in InspectFile(files, path, active).value
    ensures e in InspectLines(files, lines, active).value
    decreases |lines|
  {
    hide InspectFile;
    if lines[0] != Include(Some(path)) {
      IncludedEffects(files, lines[1..], active, path, e);
    }
  }

  lemma {:induction false} LineGives(files: Files, lines: seq<Line>, active: set<Path>, line: Line, e: Effect)
    requires line in lines && Gives(line, e) && InspectLines(files, lines, active).Ok?
    ensures e in InspectLines(files, lines, active).value
    decreases |lines|
  {
    hide InspectFile, InspectOne;
    if lines[0] != line {
      LineGives(files, lines[1..], active, line, e);
    }
  }

  lemma {:induction false} WalkGives(
    files: Files, lines: seq<Line>, active: set<Path>, w: seq<Path>, line: Line, e: Effect)
    requires InspectLines(files, lines, active).Ok? && Gives(line, e)
    requires Walk(files, w) && Include(Some(w[0])) in lines && Holds(files, w[|w| - 1], line)
    ensures e in InspectLines(files, lines, active).value
    decreases |w|
  {
    hide InspectLines, Gives;
    IncludedIsRead(files, lines, active, w[0]);
    var read := files[w[0]].value;
    if |w| == 1 {
      LineGives(files, read, active + {w[0]}, line, e);
    } else {
      forall k | 0 <= k < |w[1..]| - 1 ensures Includes(files, w[1..][k], w[1..][k + 1]) {
        assert Includes(files, w[k + 1], w[k + 2]);
      }
      assert Includes(files, w[0], w[1]);
      WalkGives(files, read, active + {w[0]}, w[1..], line, e);
    }
    IncludedEffects(files, lines, active, w[0], e);
  }

  lemma ReachedIsAllowed(files: Files, lines: seq<Line>, active: set<Path>, line: Line)
    requires InspectLines(files, lines, active).Ok? && Reached(files, lines, line)
    ensures AllowedLine(line)
  {
    hide InspectLines, InspectFile, AllowedLine;
    if line in lines {
      var k :| 0 <= k < |lines| && lines[k] == line;
      AcceptedLines(files, lines, active, k);
    } else {
      var w :| Walk(files, w) && Include(Some(w[0])) in lines && Holds(files, w[|w| - 1], line);
      IncludedIsRead(files, lines, active, w[0]);
      AcceptedIsAllowed(files, w[0], active, w);
      var k :| 0 <= k < |files[w[|w| - 1]].value| && files[w[|w| - 1]].value[k] == line;
    }
  }

  /** Accepted lines have exactly the effects that the lines their includes reach ask for. */
  lemma EffectsAreReached(files: Files, lines: seq<Line>, active: set<Path>, e: Effect)
    requires InspectLines(files, lines, active).Ok?
    ensures e in InspectLines(files, lines, active).value <==>
            exists line :: Reached(files, lines, line) && Gives(line, e)
  {
    hide InspectLines, Gives;
    if e in InspectLines(files, lines, active).value {
      var line := LineOf(files, lines, active, e);
    }
    forall line | Reached(files, lines, line) && Gives(line, e) ensures e in InspectLines(files, lines, active).value {
      if line in lines {
        LineGives(files, lines, active, line, e);
      } else {
        var w :| Walk(files, w) && Include(Some(w[0])) in lines && Holds(files, w[|w| - 1], line);
        WalkGives(files, lines, active, w, line, e);
      }
    }
  }

  /** A requirement that applies here and names a distribution of the parent image. */
  predicate AsksParent(line: Line, name: string) {
    && line.Require? && line.requirement.Named?
    && line.requirement.ofParent && line.requirement.marker && line.requirement.name == name
  }

  /** It gives no source of its own and admits the version the parent has. */
  predicate SuitsParent(line: Line) {
    line.Require? && line.requirement.Named? && line.requirement.url.None? && line.requirement.admitsParent
  }

  /** A requirement that applies here, names nothing of the parent image, and has such a source. */
  predicate AsksOther(line: Line, text: string, git: bool) {
    && line.Require? && line.requirement.Named?
    && !line.requirement.ofParent && line.requirement.marker && line.requirement.text == text
    && if git then line.requirement.url == Some(Git(true))
       else line.requirement.url.None? || line.requirement.url == Some(Remote(true))
  }

  /** A local directory, or a local wheel that is none of the parent image. */
  predicate IsOwn(local: Local, path: Path) {
    local == Directory(path) || local == LocalWheel(path, true, false)
  }

  predicate AsksLocal(line: Line, path: Path) {
    && line.Require?
    && match line.requirement
       case LocalPath(local) => IsOwn(local, path)
       case Named(_, _, ofParent, marker, url, _) =>
         !ofParent && marker && url.Some? && url.value.FileUrl? && IsOwn(url.value.local, path)
       case _ => false
  }

  /**
   Whatever is accepted, the resolver is asked for exactly the options and the requirements of
   reached lines that are none of the parent image, git and local paths likewise, and what is left
   to the parent image is exactly what some reached line requires of it. Each such line gives no
   source of its own and admits the version of the parent.
   */
  lemma ParentStaysOutside(files: Files, lines: seq<Line>)
    requires InspectLines(files, lines, {}).Ok?
    ensures var inspected := AddAll(NOTHING_INSPECTED, InspectLines(files, lines, {}).value);
            && (forall s :: s in inspected.resolver <==>
                  exists line :: Reached(files, lines, line)
                    && ((line == Source(s) && s != "") || AsksOther(line, s, false)))
            && (forall s :: s in inspected.vcs <==>
                  exists line :: Reached(files, lines, line) && AsksOther(line, s, true))
            && (forall path :: path in inspected.local <==>
                  exists line :: Reached(files, lines, line) && AsksLocal(line, path))
            && (forall name :: name in inspected.external <==>
                  exists line :: Reached(files, lines, line) && AsksParent(line, name))
    ensures forall line, name | Reached(files, lines, line) && AsksParent(line, name) :: SuitsParent(line)
  {
    hide InspectLines, InspectOne, Reached, AsksParent, AsksOther, AsksLocal, SuitsParent, Gives;
    var effects := InspectLines(files, lines, {}).value;
    AddsExactly(NOTHING_INSPECTED, effects);
    forall e: Effect
      ensures e in effects <==> exists line :: Reached(files, lines, line) && Gives(line, e)
    {
      EffectsAreReached(files, lines, {}, e);
    }
    forall line | Reached(files, lines, line) ensures AllowedLine(line) {
      ReachedIsAllowed(files, lines, {}, line);
    }
    forall line, s | AllowedLine(line)
      ensures Gives(line, Resolver(s)) <==> (line == Source(s) && s != "") || AsksOther(line, s, false)
      ensures Gives(line, Vcs(s)) <==> AsksOther(line, s, true)
      ensures Gives(line, LocalInput(s)) <==> AsksLocal(line, s)
      ensures Gives(line, External(s)) <==> AsksParent(line, s)
    {
      AskedOf(line, s);
    }
    forall line, name | Reached(files, lines, line) && AsksParent(line, name) ensures SuitsParent(line) {
      AskedOf(line, name);
    }
  }

  lemma AskedOf(line: Line, s: string)
    requires AllowedLine(line)
    ensures Gives(line, Resolver(s)) <==> (line == Source(s) && s != "") || AsksOther(line, s, false)
    ensures Gives(line, Vcs(s)) <==> AsksOther(line, s, true)
    ensures Gives(line, LocalInput(s)) <==> AsksLocal(line, s)
    ensures Gives(line, External(s)) <==> AsksParent(line, s)
    ensures AsksParent(line, s) ==> SuitsParent(line)
  {
  }
}
