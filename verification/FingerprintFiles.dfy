/**
 Which files of a project go into its fingerprint: ignore rules, of which the last match wins, and
 a walk of the directories that leaves ignored ones out unless some rule is negated.
 */
module FingerprintFiles {
  import opened Wrappers
  import opened StringOrder
  import opened TextLines
  import opened FingerprintBytes
  import opened Utf8

  /** The parts of a path relative to the project. */
  type Parts = seq<string>

  datatype Rule = Rule(pattern: string, negated: bool, directoryOnly: bool, anchored: bool)

  /** Shell-style matching of a name or path with a pattern, which is not modelled further. */
  type Matcher = (string, string) -> bool

  /**
   A directory entry as the walk meets it. A link to a directory is listed with the directories
   but not followed; links to files and special files are no regular files.
   */
  datatype Node =
    | File(mode: nat, content: seq<Byte>) | LinkedFile(target: seq<Byte>) | Special | LinkedDir
    | Dir(children: seq<Child>)

  datatype Child = Child(name: string, node: Node)

  datatype Found = Found(path: Parts, mode: nat, content: seq<Byte>)

  datatype Context = Context(rules: seq<Rule>, matches: Matcher)

  function Join(parts: Parts): string {
    if parts == [] then "" else if |parts| == 1 then parts[0] else parts[0] + "/" + Join(parts[1..])
  }

  predicate HasSlash(pattern: string) { '/' in pattern }

  predicate RuleMatches(matches: Matcher, rule: Rule, value: string, basename: string) {
    if rule.anchored || HasSlash(rule.pattern) then matches(value, rule.pattern) else matches(basename, rule.pattern)
  }

  predicate Applies(matches: Matcher, rule: Rule, parts: Parts, isDirectory: bool)
    requires parts != []
  {
    if rule.directoryOnly && !isDirectory then
      exists k | 0 <= k < |parts| - 1 :: RuleMatches(matches, rule, Join(parts[..k + 1]), parts[k])
    else
      || RuleMatches(matches, rule, Join(parts), parts[|parts| - 1])
      || (!HasSlash(rule.pattern) && exists k | 0 <= k < |parts| :: matches(parts[k], rule.pattern))
  }

  /** The last rule that applies decides. */
  predicate Ignored(ctx: Context, parts: Parts, isDirectory: bool)
    requires parts != []
  {
    exists k | 0 <= k < |ctx.rules| ::
      && Applies(ctx.matches, ctx.rules[k], parts, isDirectory) && !ctx.rules[k].negated
      && forall j | k < j < |ctx.rules| :: !Applies(ctx.matches, ctx.rules[j], parts, isDirectory)
  }

  predicate HasNegations(rules: seq<Rule>) { exists k | 0 <= k < |rules| :: rules[k].negated }

  const DOCKERIGNORE := ".dockerignore"

  /** The walk leaves this directory out. */
  predicate LeftOut(ctx: Context, parts: Parts)
    requires parts != []
  {
    !HasNegations(ctx.rules) && Ignored(ctx, parts, true)
  }

  predicate Taken(ctx: Context, parts: Parts)
    requires parts != []
  {
    parts == [DOCKERIGNORE] || !Ignored(ctx, parts, false)
  }

  /** The files the walk takes from one directory. */
  function FilesIn(ctx: Context, parts: Parts, children: seq<Child>): seq<Found> {
    if children == [] then []
    else
      var path := parts + [children[0].name];
      (if children[0].node.File? && Taken(ctx, path)
       then [Found(path, children[0].node.mode, children[0].node.content)] else [])
      + FilesIn(ctx, parts, children[1..])
  }

  /** The files the walk takes from a directory, then from those below it in the order listed. */
  function WalkDir(ctx: Context, parts: Parts, children: seq<Child>): seq<Found>
    decreases children, 1
  {
    FilesIn(ctx, parts, children) + WalkBelow(ctx, parts, children)
  }

  function WalkBelow(ctx: Context, parts: Parts, children: seq<Child>): seq<Found>
    decreases children, 0
  {
    if children == [] then []
    else
      var path := parts + [children[0].name];
      (if children[0].node.Dir? && !LeftOut(ctx, path) then WalkDir(ctx, path, children[0].node.children) else [])
      + WalkBelow(ctx, parts, children[1..])
  }

  /** What the files hashed are sorted by. */
  function PathOf(f: Found): string { Join(f.path) }

  function Fingerprinted(ctx: Context, root: seq<Child>): seq<Found> {
    SortBy(PathOf, WalkDir(ctx, [], root))
  }

  // What it should be

  /** The entry of that name in a directory. */
  function Lookup(children: seq<Child>, name: string): Option<Node> {
    if children == [] then None
    else if children[0].name == name then Some(children[0].node)
    else Lookup(children[1..], name)
  }

  /** What the path leads to, following real directories only. */
  function At(children: seq<Child>, parts: Parts): Option<Node>
    requires parts != []
    decreases |parts|
  {
    var node := Lookup(children, parts[0]);
    if |parts| == 1 then node
    else if node.Some? && node.value.Dir? then At(node.value.children, parts[1..])
    else None
  }

  /** Names are used once in each directory. */
  predicate Distinct(children: seq<Child>)
    decreases children
  {
    && (forall i, j | 0 <= i < j < |children| :: children[i].name != children[j].name)
    && (forall k | 0 <= k < |children| :: children[k].node.Dir? ==> Distinct(children[k].node.children))
  }

  /** A regular file none of whose directories below `from` is left out, and which is taken itself. */
  predicate Included(ctx: Context, from: nat, f: Found)
    requires from < |f.path|
  {
    && Taken(ctx, f.path)
    && forall n | from < n < |f.path| :: !LeftOut(ctx, f.path[..n])
  }

  predicate IsFile(children: seq<Child>, parts: Parts, f: Found)
    requires parts != []
  {
    At(children, parts) == Some(File(f.mode, f.content))
  }

  lemma {:induction false} LookupIs(children: seq<Child>, k: nat)
    requires Distinct(children) && k < |children|
    ensures Lookup(children, children[k].name) == Some(children[k].node)
  {
    if k > 0 {
      DistinctRest(children);
      LookupIs(children[1..], k - 1);
    }
  }

  lemma {:induction false} LookupFinds(children: seq<Child>, name: string) returns (k: nat)
    requires Lookup(children, name).Some?
    ensures k < |children| && children[k].name == name && Lookup(children, name) == Some(children[k].node)
  {
    if children[0].name == name {
      k := 0;
    } else {
      k := LookupFinds(children[1..], name);
      k := k + 1;
    }
  }

  lemma DistinctRest(children: seq<Child>)
    requires children != [] && Distinct(children)
    ensures Distinct(children[1..])
  {
  }

  lemma {:induction false} FilesAre(ctx: Context, parts: Parts, children: seq<Child>, f: Found)
    ensures f in FilesIn(ctx, parts, children) <==>
            exists k | 0 <= k < |children| ::
              f.path == parts + [children[k].name] && children[k].node == File(f.mode, f.content) && Taken(ctx, f.path)
  {
    hide Taken;
    if children != [] {
      FilesAre(ctx, parts, children[1..], f);
      assert children == [children[0]] + children[1..];
      if exists k | 0 <= k < |children| ::
           f.path == parts + [children[k].name] && children[k].node == File(f.mode, f.content) && Taken(ctx, f.path)
      {
        var k :| 0 <= k < |children|
          && f.path == parts + [children[k].name] && children[k].node == File(f.mode, f.content) && Taken(ctx, f.path);
        if k > 0 {
          assert children[1..][k - 1] == children[k];
        }
      }
    }
  }

  lemma {:induction false} BelowAre(ctx: Context, parts: Parts, children: seq<Child>, f: Found)
    ensures f in WalkBelow(ctx, parts, children) <==>
            exists k | 0 <= k < |children| ::
              var path := parts + [children[k].name];
              children[k].node.Dir? && !LeftOut(ctx, path) && f in WalkDir(ctx, path, children[k].node.children)
    decreases |children|
  {
    hide WalkDir, LeftOut;
    if children != [] {
      BelowAre(ctx, parts, children[1..], f);
      assert children == [children[0]] + children[1..];
      if exists k | 0 <= k < |children| ::
           var path := parts + [children[k].name];
           children[k].node.Dir? && !LeftOut(ctx, path) && f in WalkDir(ctx, path, children[k].node.children)
      {
        var k :| 0 <= k < |children|
          && var path := parts + [children[k].name];
             children[k].node.Dir? && !LeftOut(ctx, path) && f in WalkDir(ctx, path, children[k].node.children);
        if k > 0 {
          assert children[1..][k - 1] == children[k];
        }
      }
    }
  }

  /** What the walk of the directory at `parts` should find. */
  predicate Belongs(ctx: Context, parts: Parts, children: seq<Child>, f: Found) {
    && |f.path| > |parts| && f.path[..|parts|] == parts
    && IsFile(children, f.path[|parts|..], f)
    && Included(ctx, |parts|, f)
  }

  /** One directory further down. */
  lemma BelongsBelow(ctx: Context, parts: Parts, children: seq<Child>, k: nat, f: Found)
    requires k < |children| && Distinct(children) && children[k].node.Dir?
    ensures var path := parts + [children[k].name];
            !LeftOut(ctx, path) && Belongs(ctx, path, children[k].node.children, f) ==> Belongs(ctx, parts, children, f)
  {
    hide LeftOut, Taken;
    var path, below := parts + [children[k].name], children[k].node.children;
    if !LeftOut(ctx, path) && Belongs(ctx, path, below, f) {
      LookupIs(children, k);
      assert f.path[..|parts|] == path[..|parts|] == parts;
      assert f.path[|parts|] == path[|parts|] == children[k].name;
      assert f.path[|parts|..][1..] == f.path[|path|..];
      forall n | |parts| < n < |f.path| ensures !LeftOut(ctx, f.path[..n]) {
        if n == |path| {
          assert f.path[..n] == path;
        }
      }
    }
  }

  lemma BelongsIsBelow(ctx: Context, parts: Parts, children: seq<Child>, f: Found) returns (k: nat)
    requires Belongs(ctx, parts, children, f) && |f.path| > |parts| + 1
    ensures k < |children| && children[k].node.Dir?
    ensures var path := parts + [children[k].name];
            !LeftOut(ctx, path) && Belongs(ctx, path, children[k].node.children, f)
  {
    hide LeftOut, Taken;
    var rest := f.path[|parts|..];
    k := LookupFinds(children, rest[0]);
    var path := parts + [children[k].name];
    assert f.path[..|path|] == path;
    assert rest[1..] == f.path[|path|..];
    assert !LeftOut(ctx, f.path[..|path|]);
  }

  lemma {:induction false} WalkFinds(ctx: Context, parts: Parts, children: seq<Child>, f: Found)
    requires Distinct(children)
    ensures f in WalkDir(ctx, parts, children) <==> Belongs(ctx, parts, children, f)
    decreases children
  {
    hide LeftOut, Taken, WalkBelow, FilesIn, IsFile, Included, Distinct;
    FilesAre(ctx, parts, children, f);
    BelowAre(ctx, parts, children, f);
    if f in FilesIn(ctx, parts, children) {
      FileBelongs(ctx, parts, children, f);
    }
    if f in WalkBelow(ctx, parts, children) {
      var k :| 0 <= k < |children|
        && var path := parts + [children[k].name];
           children[k].node.Dir? && !LeftOut(ctx, path) && f in WalkDir(ctx, path, children[k].node.children);
      DistinctBelow(children, k);
      WalkFinds(ctx, parts + [children[k].name], children[k].node.children, f);
      BelongsBelow(ctx, parts, children, k, f);
    }
    if Belongs(ctx, parts, children, f) {
      if |f.path| == |parts| + 1 {
        BelongsIsFile(ctx, parts, children, f);
      } else {
        var k := BelongsIsBelow(ctx, parts, children, f);
        DistinctBelow(children, k);
        WalkFinds(ctx, parts + [children[k].name], children[k].node.children, f);
      }
    }
  }

  lemma DistinctBelow(children: seq<Child>, k: nat)
    requires Distinct(children) && k < |children| && children[k].node.Dir?
    ensures Distinct(children[k].node.children)
  {
  }

  lemma FileBelongs(ctx: Context, parts: Parts, children: seq<Child>, f: Found)
    requires Distinct(children) && f in FilesIn(ctx, parts, children)
    ensures Belongs(ctx, parts, children, f)
  {
    hide Taken;
    FilesAre(ctx, parts, children, f);
    var k :| 0 <= k < |children|
      && f.path == parts + [children[k].name] && children[k].node == File(f.mode, f.content) && Taken(ctx, f.path);
    LookupIs(children, k);
    assert f.path[|parts|..] == [children[k].name];
  }

  lemma BelongsIsFile(ctx: Context, parts: Parts, children: seq<Child>, f: Found)
    requires Belongs(ctx, parts, children, f) && |f.path| == |parts| + 1
    ensures f in FilesIn(ctx, parts, children)
  {
    hide Taken;
    var rest := f.path[|parts|..];
    var k := LookupFinds(children, rest[0]);
    assert f.path == parts + [children[k].name];
    FilesAre(ctx, parts, children, f);
  }

  /** No path twice. */
  predicate PathsOnce(found: seq<Found>) {
    forall i, j | 0 <= i < j < |found| :: found[i].path != found[j].path
  }

  lemma {:induction false} FilesOnce(ctx: Context, parts: Parts, children: seq<Child>)
    requires Distinct(children)
    ensures PathsOnce(FilesIn(ctx, parts, children))
  {
    hide Taken;
    if children != [] {
      DistinctRest(children);
      FilesOnce(ctx, parts, children[1..]);
      var path, later := parts + [children[0].name], FilesIn(ctx, parts, children[1..]);
      forall f | f in later ensures f.path != path {
        FilesAre(ctx, parts, children[1..], f);
        var k :| 0 <= k < |children[1..]| && f.path == parts + [children[1..][k].name];
        assert children[1..][k] == children[k + 1];
        assert path[|parts|] == children[0].name && f.path[|parts|] == children[k + 1].name;
      }
    }
  }

  /** What a walk finds lies below where it started. */
  lemma FoundBelow(ctx: Context, parts: Parts, children: seq<Child>, f: Found)
    requires Distinct(children) && f in WalkDir(ctx, parts, children)
    ensures |f.path| > |parts| && f.path[..|parts|] == parts
  {
    hide WalkDir;
    WalkFinds(ctx, parts, children, f);
  }

  lemma FoundThrough(ctx: Context, parts: Parts, children: seq<Child>, f: Found) returns (k: nat)
    requires Distinct(children) && f in WalkBelow(ctx, parts, children)
    ensures k < |children| && |f.path| > |parts| + 1 && f.path[|parts|] == children[k].name
  {
    hide WalkDir, WalkBelow, LeftOut;
    BelowAre(ctx, parts, children, f);
    k :| 0 <= k < |children|
      && var path := parts + [children[k].name];
         children[k].node.Dir? && !LeftOut(ctx, path) && f in WalkDir(ctx, path, children[k].node.children);
    DistinctBelow(children, k);
    FoundBelow(ctx, parts + [children[k].name], children[k].node.children, f);
    assert f.path[..|parts| + 1][|parts|] == children[k].name;
  }

  lemma OnceTogether(a: seq<Found>, b: seq<Found>)
    requires PathsOnce(a) && PathsOnce(b)
    requires forall f, g | f in a && g in b :: f.path != g.path
    ensures PathsOnce(a + b)
  {
  }

  lemma {:induction false} WalkOnce(ctx: Context, parts: Parts, children: seq<Child>)
    requires Distinct(children)
    ensures PathsOnce(WalkDir(ctx, parts, children))
    decreases children, 1
  {
    hide WalkBelow, FilesIn, PathsOnce, Distinct;
    FilesOnce(ctx, parts, children);
    BelowOnce(ctx, parts, children);
    var here, below := FilesIn(ctx, parts, children), WalkBelow(ctx, parts, children);
    forall f, g | f in here && g in below ensures f.path != g.path {
      FilesAre(ctx, parts, children, f);
      var k := FoundThrough(ctx, parts, children, g);
    }
    OnceTogether(here, below);
  }

  lemma {:induction false} BelowOnce(ctx: Context, parts: Parts, children: seq<Child>)
    requires Distinct(children)
    ensures PathsOnce(WalkBelow(ctx, parts, children))
    decreases children, 0
  {
    hide WalkDir, LeftOut;
    if children != [] {
      hide PathsOnce;
      DistinctRest(children);
      BelowOnce(ctx, parts, children[1..]);
      var path, later := parts + [children[0].name], WalkBelow(ctx, parts, children[1..]);
      assert [] + later == later;
      if children[0].node.Dir? && !LeftOut(ctx, path) {
        var first := WalkDir(ctx, path, children[0].node.children);
        WalkOnce(ctx, path, children[0].node.children);
        forall f, g | f in first && g in later ensures f.path != g.path {
          FoundBelow(ctx, path, children[0].node.children, f);
          var k := FoundThrough(ctx, parts, children[1..], g);
          assert children[1..][k] == children[k + 1];
          assert f.path[..|path|][|parts|] == children[0].name;
        }
        OnceTogether(first, later);
      }
    }
  }

  /**
   The files hashed are, sorted by path and each once, exactly the regular files reached through
   real directories none of which is left out, that are the top-level `.dockerignore` or not ignored
   themselves. A directory is left out if it is ignored and no rule is negated.
   */
  lemma FingerprintedAreExact(ctx: Context, root: seq<Child>)
    requires Distinct(root)
    ensures InOrderBy(PathOf, Fingerprinted(ctx, root)) && PathsOnce(Fingerprinted(ctx, root))
    ensures forall f :: f in Fingerprinted(ctx, root) <==>
                f.path != [] && IsFile(root, f.path, f) && Included(ctx, 0, f)
  {
    hide WalkDir, Included, IsFile, SortBy, PathsOnce;
    SortSorts(PathOf, WalkDir(ctx, [], root));
    WalkOnce(ctx, [], root);
    OnceIsOnce(WalkDir(ctx, [], root), Fingerprinted(ctx, root));
    forall f ensures f in Fingerprinted(ctx, root) <==> f.path != [] && IsFile(root, f.path, f) && Included(ctx, 0, f) {
      WalkFinds(ctx, [], root, f);
      assert f in Fingerprinted(ctx, root) <==> f in multiset(Fingerprinted(ctx, root));
      assert f in WalkDir(ctx, [], root) <==> f in multiset(WalkDir(ctx, [], root));
      assert f.path[..0] == [] && f.path[0..] == f.path;
    }
  }

  /** The same files in another order still have no path twice. */
  lemma OnceIsOnce(a: seq<Found>, b: seq<Found>)
    requires PathsOnce(a) && multiset(a) == multiset(b)
    ensures PathsOnce(b)
  {
    forall i, j | 0 <= i < j < |b| ensures b[i].path != b[j].path {
      if b[i].path == b[j].path {
        assert b[i] in multiset(b) && b[j] in multiset(b);
        var k :| 0 <= k < |a| && a[k] == b[i];
        var m :| 0 <= m < |a| && a[m] == b[j];
        assert k == m;
        TwiceCounts(b, i, j);
        OnceCounts(a, k);
      }
    }
  }

  lemma TwiceCounts(b: seq<Found>, i: nat, j: nat)
    requires i < j < |b| && b[i] == b[j]
    ensures multiset(b)[b[i]] >= 2
  {
    assert b == b[..i] + [b[i]] + b[i + 1..j] + [b[j]] + b[j + 1..];
  }

  lemma OnceCounts(a: seq<Found>, k: nat)
    requires k < |a| && PathsOnce(a)
    ensures multiset(a)[a[k]] == 1
  {
    assert a == a[..k] + [a[k]] + a[k + 1..];
    assert a[k] !in a[..k] && a[k] !in a[k + 1..];
    assert a[k] !in multiset(a[..k]) && a[k] !in multiset(a[k + 1..]);
  }

  // Rules

  lemma IgnoredWithoutNegation(ctx: Context, parts: Parts, isDirectory: bool)
    requires !HasNegations(ctx.rules) && parts != []
    ensures Ignored(ctx, parts, isDirectory) <==>
            exists k | 0 <= k < |ctx.rules| :: Applies(ctx.matches, ctx.rules[k], parts, isDirectory)
  {
    hide Applies;
    if exists k | 0 <= k < |ctx.rules| :: Applies(ctx.matches, ctx.rules[k], parts, isDirectory) {
      var k :| 0 <= k < |ctx.rules| && Applies(ctx.matches, ctx.rules[k], parts, isDirectory);
      var last := LastThatApplies(ctx, parts, isDirectory, k);
    }
  }

  lemma {:induction false} LastThatApplies(ctx: Context, parts: Parts, isDirectory: bool, k: nat) returns (last: nat)
    requires parts != [] && k < |ctx.rules| && Applies(ctx.matches, ctx.rules[k], parts, isDirectory)
    ensures k <= last < |ctx.rules| && Applies(ctx.matches, ctx.rules[last], parts, isDirectory)
    ensures forall j | last < j < |ctx.rules| :: !Applies(ctx.matches, ctx.rules[j], parts, isDirectory)
    decreases |ctx.rules| - k
  {
    hide Applies;
    last := k;
    if exists j | k < j < |ctx.rules| :: Applies(ctx.matches, ctx.rules[j], parts, isDirectory) {
      var j :| k < j < |ctx.rules| && Applies(ctx.matches, ctx.rules[j], parts, isDirectory);
      last := LastThatApplies(ctx, parts, isDirectory, j);
    }
  }

  /** Without negations, more rules never bring in a file. */
  lemma MoreRulesFewerFiles(matches: Matcher, fewer: seq<Rule>, more: seq<Rule>, root: seq<Child>, f: Found)
    requires Distinct(root) && !HasNegations(more)
    requires forall k | 0 <= k < |fewer| :: fewer[k] in more
    requires f in Fingerprinted(Context(more, matches), root)
    ensures f in Fingerprinted(Context(fewer, matches), root)
  {
    hide Applies, IsFile, Fingerprinted, Ignored;
    var small, large := Context(fewer, matches), Context(more, matches);
    FingerprintedAreExact(small, root);
    FingerprintedAreExact(large, root);
    assert !HasNegations(fewer);
    forall parts: Parts, isDirectory | parts != [] && Ignored(small, parts, isDirectory)
      ensures Ignored(large, parts, isDirectory)
    {
      IgnoredWithoutNegation(small, parts, isDirectory);
      IgnoredWithoutNegation(large, parts, isDirectory);
      var k :| 0 <= k < |fewer| && Applies(matches, fewer[k], parts, isDirectory);
      var j :| 0 <= j < |more| && more[j] == fewer[k];
    }
  }

  const DEFAULT_IGNORES: seq<string> :=
    [".git", ".venv", ".cache", ".amd-ai", "models", "input", "output", "reports", "__pycache__", "*.pyc"]

  /** A rule that names a file or directory at any depth. */
  predicate Plain(rule: Rule) {
    !rule.negated && !rule.directoryOnly && !rule.anchored && !HasSlash(rule.pattern)
  }

  /** Without negations, nothing with a part that a plain rule matches is hashed, at any depth. */
  lemma NothingBelowAPlainRule(ctx: Context, root: seq<Child>, f: Found, rule: Rule, k: nat)
    requires Distinct(root) && !HasNegations(ctx.rules) && rule in ctx.rules && Plain(rule)
    requires k < |f.path| && ctx.matches(f.path[k], rule.pattern) && f.path != [DOCKERIGNORE]
    ensures f !in Fingerprinted(ctx, root)
  {
    hide IsFile, Fingerprinted, Ignored;
    FingerprintedAreExact(ctx, root);
    var j :| 0 <= j < |ctx.rules| && ctx.rules[j] == rule;
    assert Applies(ctx.matches, ctx.rules[j], f.path, false);
    IgnoredWithoutNegation(ctx, f.path, false);
  }

  /**
   A plain rule for directories only applies to a file exactly if it matches one of the directories
   above it, so without negations nothing below such a directory is hashed.
   */
  lemma DirectoryRules(ctx: Context, root: seq<Child>, f: Found, rule: Rule)
    requires Distinct(root) && !HasNegations(ctx.rules) && rule in ctx.rules
    requires Plain(rule.(directoryOnly := false)) && rule.directoryOnly && f.path != []
    ensures Applies(ctx.matches, rule, f.path, false) <==>
            exists k | 0 <= k < |f.path| - 1 :: ctx.matches(f.path[k], rule.pattern)
    ensures Applies(ctx.matches, rule, f.path, false) && f.path != [DOCKERIGNORE] ==> f !in Fingerprinted(ctx, root)
  {
    hide IsFile, Fingerprinted, Ignored;
    FingerprintedAreExact(ctx, root);
    var j :| 0 <= j < |ctx.rules| && ctx.rules[j] == rule;
    IgnoredWithoutNegation(ctx, f.path, false);
  }

  function StripLeft(text: string): string {
    if text != "" && Whitespace(text[0]) then StripLeft(text[1..]) else text
  }

  function StripRight(text: string): string {
    if text != "" && Whitespace(text[|text| - 1]) then StripRight(text[..|text| - 1]) else text
  }

  /** A slash at the end makes the rule one for directories only. */
  function ReadEnd(line: string, negated: bool, anchored: bool): Option<Rule> {
    var directoryOnly := line != "" && line[|line| - 1] == '/';
    var pattern := if directoryOnly then line[..|line| - 1] else line;
    if pattern == "" then None else Some(Rule(pattern, negated, directoryOnly, anchored))
  }

  /** A slash at the beginning anchors the rule. */
  function ReadAnchor(line: string, negated: bool): Option<Rule> {
    if line != "" && line[0] == '/' then ReadEnd(line[1..], negated, true) else ReadEnd(line, negated, false)
  }

  /** The rule a line stands for, if it is no comment and not empty. */
  function ParseRule(raw: string): Option<Rule> {
    var line := StripRight(StripLeft(raw));
    if line == "" || line[0] == '#' then None
    else if line[0] == '!' then ReadAnchor(line[1..], true)
    else ReadAnchor(line, false)
  }

  /** A rule as it is written: `!`, `/`, the pattern, `/`. */
  function RuleText(rule: Rule): string {
    if rule.negated then "!" + AnchoredText(rule) else AnchoredText(rule)
  }

  function AnchoredText(rule: Rule): string {
    if rule.anchored then "/" + EndText(rule) else EndText(rule)
  }

  function EndText(rule: Rule): string {
    if rule.directoryOnly then rule.pattern + "/" else rule.pattern
  }

  /** A pattern that no part of the notation can be mistaken for. */
  predicate Unmistakable(pattern: string) {
    && pattern != "" && !Whitespace(pattern[0]) && !Whitespace(pattern[|pattern| - 1])
    && pattern[0] !in {'#', '!', '/'} && pattern[|pattern| - 1] != '/'
  }

  lemma NothingToStrip(text: string)
    requires text != "" && !Whitespace(text[0]) && !Whitespace(text[|text| - 1])
    ensures StripRight(StripLeft(text)) == text
  {
  }

  lemma EndIsRead(rule: Rule)
    requires Unmistakable(rule.pattern)
    ensures var text := EndText(rule);
            && ReadEnd(text, rule.negated, rule.anchored) == Some(rule)
            && text != "" && text[0] == rule.pattern[0] && !Whitespace(text[|text| - 1])
  {
    var text := EndText(rule);
    if rule.directoryOnly {
      assert text[..|text| - 1] == rule.pattern;
    }
  }

  lemma AnchorIsRead(rule: Rule)
    requires Unmistakable(rule.pattern)
    ensures var text := AnchoredText(rule);
            && ReadAnchor(text, rule.negated) == Some(rule)
            && text != "" && text[0] !in {'#', '!'} && !Whitespace(text[0]) && !Whitespace(text[|text| - 1])
  {
    hide ReadEnd, EndText;
    EndIsRead(rule);
    var text := AnchoredText(rule);
    if rule.anchored {
      assert text[1..] == EndText(rule);
    }
  }

  /** Reading a written rule gives the rule back. */
  lemma ParseRuleUndoesText(rule: Rule)
    requires Unmistakable(rule.pattern)
    ensures ParseRule(RuleText(rule)) == Some(rule)
  {
    hide ReadAnchor, AnchoredText, Unmistakable;
    AnchorIsRead(rule);
    var text := RuleText(rule);
    NothingToStrip(text);
    if rule.negated {
      assert text[1..] == AnchoredText(rule);
    }
  }

  function RulesOf(lines: seq<string>): seq<Rule> {
    if lines == [] then []
    else
      var rule := ParseRule(lines[0]);
      (if rule.None? then [] else [rule.value]) + RulesOf(lines[1..])
  }

  /** The built-in rules and those of the top-level `.dockerignore`, if there is one. */
  function RulesFor(dockerignore: Option<string>): seq<Rule> {
    RulesOf(DEFAULT_IGNORES + if dockerignore.None? then [] else SplitLines(dockerignore.value))
  }

  /** The bytes of the top-level `.dockerignore`, which may be a link to a file. */
  function Dockerignore(root: seq<Child>): Option<seq<Byte>> {
    match Lookup(root, DOCKERIGNORE)
    case Some(File(_, content)) => Some(content)
    case Some(LinkedFile(target)) => Some(target)
    case _ => None
  }

  /** The rules for a project; None when its `.dockerignore` is no UTF-8. */
  function RulesIn(root: seq<Child>): Option<seq<Rule>> {
    var bytes := Dockerignore(root);
    if bytes.None? then Some(RulesFor(None))
    else
      var text := DecodeStrict(bytes.value);
      if text.None? then None else Some(RulesFor(text))
  }

  lemma {:induction false} RuleIsThere(lines: seq<string>, k: nat)
    requires k < |lines| && ParseRule(lines[k]).Some?
    ensures ParseRule(lines[k]).value in RulesOf(lines)
  {
    hide ParseRule;
    if k > 0 {
      RuleIsThere(lines[1..], k - 1);
    }
  }

  /** A line that is a pattern and nothing else. */
  predicate PatternOnly(line: string) {
    && line != "" && !Whitespace(line[0]) && !Whitespace(line[|line| - 1])
    && line[0] != '#' && line[0] != '!' && !HasSlash(line)
  }

  lemma PatternIsItsRule(line: string)
    requires PatternOnly(line)
    ensures ParseRule(line) == Some(Rule(line, false, false, false)) && Plain(ParseRule(line).value)
  {
    assert line[0] in line && line[|line| - 1] in line;
  }

  lemma DefaultsArePatterns(k: nat)
    requires k < |DEFAULT_IGNORES|
    ensures PatternOnly(DEFAULT_IGNORES[k])
  {
  }

  /**
   Without negations in `.dockerignore`, nothing below a default-ignored name at any depth is
   hashed, nor a file of such a name.
   */
  lemma DefaultsStayOut(matches: Matcher, root: seq<Child>, f: Found, d: nat, k: nat)
    requires Distinct(root) && RulesIn(root).Some? && !HasNegations(RulesIn(root).value)
    requires d < |DEFAULT_IGNORES|
    requires k < |f.path| && matches(f.path[k], DEFAULT_IGNORES[d]) && f.path != [DOCKERIGNORE]
    ensures f !in Fingerprinted(Context(RulesIn(root).value, matches), root)
  {
    hide ParseRule, Fingerprinted, PatternOnly, HasNegations, SplitLines, RulesOf, Distinct;
    var bytes := Dockerignore(root);
    var text := if bytes.None? then None else DecodeStrict(bytes.value);
    var lines := DEFAULT_IGNORES + if text.None? then [] else SplitLines(text.value);
    assert lines[d] == DEFAULT_IGNORES[d];
    DefaultsArePatterns(d);
    PatternIsItsRule(lines[d]);
    RuleIsThere(lines, d);
    NothingBelowAPlainRule(Context(RulesIn(root).value, matches), root, f, ParseRule(lines[d]).value, k);
  }

  // The loops

  lemma RulesStep(rules: seq<Rule>, line: string, rest: seq<string>)
    ensures var parsed := ParseRule(line);
            rules + RulesOf([line] + rest) == (if parsed.None? then rules else rules + [parsed.value]) + RulesOf(rest)
  {
    hide ParseRule;
    assert ([line] + rest)[1..] == rest;
    var parsed := ParseRule(line);
    if parsed.Some? {
      assert rules + ([parsed.value] + RulesOf(rest)) == rules + [parsed.value] + RulesOf(rest);
    } else {
      assert [] + RulesOf(rest) == RulesOf(rest);
    }
  }

  method ParseRules(lines: seq<string>) returns (rules: seq<Rule>)
    ensures rules == RulesOf(lines)
  {
    hide ParseRule, RulesOf;
    rules := [];
    assert lines[0..] == lines && [] + RulesOf(lines) == RulesOf(lines);
    for k := 0 to |lines|
      invariant RulesOf(lines) == rules + RulesOf(lines[k..])
    {
      assert lines[k..] == [lines[k]] + lines[k + 1..];
      RulesStep(rules, lines[k], lines[k + 1..]);
      var rule := ParseRule(lines[k]);
      if rule.Some? {
        rules := rules + [rule.value];
      }
    }
    NoLines(lines[|lines|..]);
    assert rules + [] == rules;
  }

  lemma NoLines(lines: seq<string>)
    ensures lines == [] ==> RulesOf(lines) == []
  {
  }

  method IgnoreRules(dockerignore: Option<string>) returns (rules: seq<Rule>)
    ensures rules == RulesFor(dockerignore)
  {
    hide RulesOf, DEFAULT_IGNORES;
    var lines := DEFAULT_IGNORES;
    if dockerignore.Some? {
      lines := lines + SplitLines(dockerignore.value);
    } else {
      assert DEFAULT_IGNORES + [] == DEFAULT_IGNORES;
    }
    rules := ParseRules(lines);
  }

  method IsIgnored(ctx: Context, parts: Parts, isDirectory: bool) returns (ignored: bool)
    requires parts != []
    ensures ignored == Ignored(ctx, parts, isDirectory)
  {
    hide Applies;
    ignored := false;
    for k := 0 to |ctx.rules|
      invariant ignored <==> exists i | 0 <= i < k ::
                  && Applies(ctx.matches, ctx.rules[i], parts, isDirectory) && !ctx.rules[i].negated
                  && forall j | i < j < k :: !Applies(ctx.matches, ctx.rules[j], parts, isDirectory)
    {
      if Applies(ctx.matches, ctx.rules[k], parts, isDirectory) {
        ignored := !ctx.rules[k].negated;
      }
    }
  }

  /** Directories still to be walked. */
  type Pending = seq<(Parts, seq<Child>)>

  function WalkAll(ctx: Context, pending: Pending): seq<Found> {
    if pending == [] then [] else WalkDir(ctx, pending[0].0, pending[0].1) + WalkAll(ctx, pending[1..])
  }

  function TreeSize(children: seq<Child>): nat
    decreases children
  {
    if children == [] then 1
    else (if children[0].node.Dir? then TreeSize(children[0].node.children) else 0) + TreeSize(children[1..])
  }

  function WorkIn(pending: Pending): nat {
    if pending == [] then 0 else TreeSize(pending[0].1) + WorkIn(pending[1..])
  }

  lemma {:induction false} WalkBoth(ctx: Context, a: Pending, b: Pending)
    ensures WalkAll(ctx, a + b) == WalkAll(ctx, a) + WalkAll(ctx, b)
    ensures WorkIn(a + b) == WorkIn(a) + WorkIn(b)
  {
    hide WalkDir, TreeSize;
    if a == [] {
      assert a + b == b;
    } else {
      assert (a + b)[1..] == a[1..] + b;
      WalkBoth(ctx, a[1..], b);
    }
  }

  lemma FilesStep(ctx: Context, parts: Parts, files: seq<Found>, child: Child, rest: seq<Child>)
    ensures var path := parts + [child.name];
            files + FilesIn(ctx, parts, [child] + rest)
            == (if child.node.File? && Taken(ctx, path)
                then files + [Found(path, child.node.mode, child.node.content)] else files) + FilesIn(ctx, parts, rest)
  {
    hide Taken;
    assert ([child] + rest)[1..] == rest;
    var later := FilesIn(ctx, parts, rest);
    if child.node.File? {
      var found := [Found(parts + [child.name], child.node.mode, child.node.content)];
      assert files + (found + later) == files + found + later;
    }
    assert [] + later == later;
  }

  lemma BelowStep(ctx: Context, parts: Parts, kept: Pending, child: Child, rest: seq<Child>)
    ensures var path := parts + [child.name];
            && WalkAll(ctx, kept) + WalkBelow(ctx, parts, [child] + rest)
               == WalkAll(ctx, if child.node.Dir? && !LeftOut(ctx, path)
                               then kept + [(path, child.node.children)] else kept)
                  + WalkBelow(ctx, parts, rest)
            && TreeSize([child] + rest)
               == (if child.node.Dir? then TreeSize(child.node.children) else 0) + TreeSize(rest)
            && (child.node.Dir? ==>
                  WorkIn(kept + [(path, child.node.children)]) == WorkIn(kept) + TreeSize(child.node.children))
  {
    hide WalkDir, LeftOut;
    assert ([child] + rest)[1..] == rest;
    var path, later := parts + [child.name], WalkBelow(ctx, parts, rest);
    if child.node.Dir? {
      var next := [(path, child.node.children)];
      OneDirectory(ctx, path, child.node.children);
      WalkBoth(ctx, kept, next);
      assert WalkAll(ctx, kept) + (WalkAll(ctx, next) + later) == WalkAll(ctx, kept) + WalkAll(ctx, next) + later;
    }
    assert [] + later == later;
  }

  lemma NoChildren(ctx: Context, parts: Parts, children: seq<Child>)
    requires children == []
    ensures FilesIn(ctx, parts, children) == [] && WalkBelow(ctx, parts, children) == [] && TreeSize(children) == 1
    ensures WalkAll(ctx, []) == [] && WorkIn([]) == 0
  {
  }

  /** Reads one directory: the files it takes, and the directories it goes on to. */
  method ReadDirectory(ctx: Context, parts: Parts, children: seq<Child>) returns (files: seq<Found>, kept: Pending)
    ensures files == FilesIn(ctx, parts, children)
    ensures WalkAll(ctx, kept) == WalkBelow(ctx, parts, children) && WorkIn(kept) < TreeSize(children)
  {
    hide WalkDir, Ignored, HasNegations, FilesIn, WalkBelow, WalkAll, TreeSize, WorkIn;
    files, kept := [], [];
    var hasNegations := HasNegations(ctx.rules);
    NoChildren(ctx, parts, []);
    assert children[0..] == children;
    assert [] + FilesIn(ctx, parts, children) == FilesIn(ctx, parts, children);
    assert [] + WalkBelow(ctx, parts, children) == WalkBelow(ctx, parts, children);
    for k := 0 to |children|
      invariant FilesIn(ctx, parts, children) == files + FilesIn(ctx, parts, children[k..])
      invariant WalkBelow(ctx, parts, children) == WalkAll(ctx, kept) + WalkBelow(ctx, parts, children[k..])
      invariant WorkIn(kept) + TreeSize(children[k..]) <= TreeSize(children)
    {
      var child, path := children[k], parts + [children[k].name];
      assert children[k..] == [child] + children[k + 1..];
      FilesStep(ctx, parts, files, child, children[k + 1..]);
      BelowStep(ctx, parts, kept, child, children[k + 1..]);
      if child.node.Dir? {
        var ignored := IsIgnored(ctx, path, true);
        if hasNegations || !ignored {
          kept := kept + [(path, child.node.children)];
        }
      } else if child.node.File? {
        var ignored := IsIgnored(ctx, path, false);
        if path == [DOCKERIGNORE] || !ignored {
          files := files + [Found(path, child.node.mode, child.node.content)];
        }
      }
    }
    NoChildren(ctx, parts, children[|children|..]);
    assert files + [] == files && WalkAll(ctx, kept) + [] == WalkAll(ctx, kept);
  }

  lemma OneDirectory(ctx: Context, parts: Parts, children: seq<Child>)
    ensures WalkAll(ctx, [(parts, children)]) == WalkDir(ctx, parts, children)
    ensures WorkIn([(parts, children)]) == TreeSize(children)
  {
    hide WalkDir, TreeSize;
    var one: Pending := [(parts, children)];
    assert one[1..] == [];
    assert WalkDir(ctx, parts, children) + [] == WalkDir(ctx, parts, children);
  }

  method WalkFiles(ctx: Context, root: seq<Child>) returns (sorted: seq<Found>)
    ensures sorted == Fingerprinted(ctx, root)
  {
    hide WalkBelow, FilesIn, TreeSize, SortBy;
    var files: seq<Found> := [];
    var pending: Pending := [([], root)];
    OneDirectory(ctx, [], root);
    while pending != []
      invariant WalkDir(ctx, [], root) == files + WalkAll(ctx, pending)
      decreases WorkIn(pending)
    {
      var (parts, children) := pending[0];
      var later := pending[1..];
      var here, kept := ReadDirectory(ctx, parts, children);
      WalkBoth(ctx, kept, later);
      assert files + (here + WalkBelow(ctx, parts, children) + WalkAll(ctx, later))
        == files + here + (WalkAll(ctx, kept) + WalkAll(ctx, later));
      files := files + here;
      pending := kept + later;
    }
    assert files + [] == files;
    sorted := SortBy(PathOf, files);
  }

  function EntryOf(f: Found): Entry { Entry(PathOf(f), f.mode, f.content) }

  function EntriesOf(found: seq<Found>): seq<Entry> {
    if found == [] then [] else [EntryOf(found[0])] + EntriesOf(found[1..])
  }

  /** The bytes whose hash is the fingerprint of a project directory. */
  function Hashed(matches: Matcher, root: seq<Child>): Option<seq<Byte>> {
    var rules := RulesIn(root);
    if rules.None? then None
    else Some(Serialize(EntriesOf(Fingerprinted(Context(rules.value, matches), root))))
  }

  /** Reads the rules, walks the files and hashes them. */
  method BuildContextFingerprint(matches: Matcher, root: seq<Child>) returns (hashed: Option<seq<Byte>>)
    ensures hashed == Hashed(matches, root)
  {
    hide RulesFor, Fingerprinted;
    var bytes := Dockerignore(root);
    var text := if bytes.None? then None else DecodeStrict(bytes.value);
    if bytes.Some? && text.None? {
      return None;
    }
    var rules := IgnoreRules(text);
    var files := WalkFiles(Context(rules, matches), root);
    var digested := HashEntries(EntriesOf(files));
    hashed := Some(digested);
  }
}
