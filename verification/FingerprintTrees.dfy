/**
 What the fingerprint says about a project: the bytes hashed are the same exactly for the same
 included files, whatever order the directories are listed in.
 */
module FingerprintTrees {
  import opened Wrappers
  import opened StringOrder
  import opened Utf8
  import opened FingerprintBytes
  import opened FingerprintFiles

  /** A name a directory entry can have. */
  predicate Name(name: string) { name != "" && !HasSlash(name) }

  predicate NamedPath(parts: Parts) {
    parts != [] && forall k | 0 <= k < |parts| :: Name(parts[k])
  }

  predicate Named(children: seq<Child>)
    decreases children
  {
    forall k | 0 <= k < |children| ::
      Name(children[k].name) && (children[k].node.Dir? ==> Named(children[k].node.children))
  }

  /** A directory as a file system has it: each name is one, and is used once in its directory. */
  predicate Tree(root: seq<Child>) { Distinct(root) && Named(root) }

  lemma {:induction false} FilesAreNamed(children: seq<Child>, parts: Parts)
    requires Named(children) && parts != [] && At(children, parts).Some?
    ensures NamedPath(parts)
    decreases |parts|
  {
    var k := LookupFinds(children, parts[0]);
    if |parts| > 1 {
      FilesAreNamed(children[k].node.children, parts[1..]);
      assert parts == [parts[0]] + parts[1..];
    }
  }

  /** Where the first part ends. */
  lemma {:induction false} SplitAtSlash(a: string, b: string, c: string, d: string)
    requires !HasSlash(a) && !HasSlash(c) && a + "/" + b == c + "/" + d
    ensures a == c && b == d
    decreases |a|
  {
    var left, right := a + "/" + b, c + "/" + d;
    if a == "" || c == "" {
      assert left[0] == right[0];
      assert a == c == "";
      assert left[1..] == b && right[1..] == d;
    } else {
      assert left[0] == a[0] && right[0] == c[0];
      assert left[1..] == a[1..] + "/" + b && right[1..] == c[1..] + "/" + d;
      SplitAtSlash(a[1..], b, c[1..], d);
      assert a == [a[0]] + a[1..] && c == [c[0]] + c[1..];
    }
  }

  lemma JoinHasSlash(parts: Parts)
    requires NamedPath(parts)
    ensures HasSlash(Join(parts)) <==> |parts| > 1
  {
    if |parts| > 1 {
      assert Join(parts)[|parts[0]|] == '/';
    }
  }

  /** A path is read off its joined form. */
  lemma {:induction false} JoinIsInjective(a: Parts, b: Parts)
    requires NamedPath(a) && NamedPath(b) && Join(a) == Join(b)
    ensures a == b
    decreases |a|
  {
    JoinHasSlash(a);
    JoinHasSlash(b);
    if |a| > 1 {
      SplitAtSlash(a[0], Join(a[1..]), b[0], Join(b[1..]));
      JoinIsInjective(a[1..], b[1..]);
      assert a == [a[0]] + a[1..] && b == [b[0]] + b[1..];
    } else {
      assert a == [a[0]] && b == [b[0]];
    }
  }

  /** A file that goes into the fingerprint under these rules. */
  predicate Hashes(ctx: Context, root: seq<Child>, f: Found) {
    f.path != [] && IsFile(root, f.path, f) && Included(ctx, 0, f)
  }

  /** The list of files is in strict order of the joined paths. */
  lemma FingerprintedAscends(ctx: Context, root: seq<Child>)
    requires Tree(root)
    ensures Ascending(PathOf, Fingerprinted(ctx, root))
    ensures forall f :: f in Fingerprinted(ctx, root) <==> Hashes(ctx, root, f)
    ensures forall f | f in Fingerprinted(ctx, root) :: NamedPath(f.path)
  {
    hide Fingerprinted, Join, Less, Included, Named, Distinct, NamedPath;
    var found := Fingerprinted(ctx, root);
    FingerprintedAreExact(ctx, root);
    forall f | f in found ensures NamedPath(f.path) {
      FilesAreNamed(root, f.path);
    }
    forall i, j | 0 <= i < j < |found| ensures Less(PathOf(found[i]), PathOf(found[j])) {
      assert NamedPath(found[i].path) && NamedPath(found[j].path);
      LessIsTotal(PathOf(found[i]), PathOf(found[j]));
      if PathOf(found[i]) == PathOf(found[j]) {
        JoinIsInjective(found[i].path, found[j].path);
      }
    }
  }

  lemma {:induction false} EntriesAre(found: seq<Found>)
    ensures |EntriesOf(found)| == |found|
    ensures forall k | 0 <= k < |found| :: EntriesOf(found)[k] == EntryOf(found[k])
  {
    if found != [] {
      EntriesAre(found[1..]);
    }
  }

  /** Files at named paths can be told from their entries. */
  lemma EntriesTell(a: seq<Found>, b: seq<Found>)
    requires forall f | f in a :: NamedPath(f.path)
    requires forall f | f in b :: NamedPath(f.path)
    ensures EntriesOf(a) == EntriesOf(b) ==> a == b
  {
    hide EntriesOf, Join, NamedPath;
    EntriesAre(a);
    EntriesAre(b);
    if EntriesOf(a) == EntriesOf(b) {
      forall k | 0 <= k < |a| ensures a[k] == b[k] {
        assert a[k] in a && b[k] in b;
        assert EntriesOf(a)[k] == EntryOf(a[k]) && EntriesOf(b)[k] == EntryOf(b[k]);
        JoinIsInjective(a[k].path, b[k].path);
      }
    }
  }

  /** The files that go into the fingerprint of a project, under its own rules. */
  predicate HashedFile(matches: Matcher, root: seq<Child>, f: Found) {
    RulesIn(root).Some? && Hashes(Context(RulesIn(root).value, matches), root, f)
  }

  /** Two projects with the same files to hash give the same bytes. */
  lemma SameFilesSameBytes(matches: Matcher, a: seq<Child>, b: seq<Child>)
    requires Tree(a) && Tree(b) && RulesIn(a).Some? && RulesIn(b).Some?
    requires forall f :: HashedFile(matches, a, f) <==> HashedFile(matches, b, f)
    ensures Hashed(matches, a) == Hashed(matches, b)
  {
    hide Fingerprinted, Hashes, RulesIn, Tree, Serialize, EntriesOf;
    var left, right := Context(RulesIn(a).value, matches), Context(RulesIn(b).value, matches);
    FingerprintedAscends(left, a);
    FingerprintedAscends(right, b);
    forall f ensures f in Fingerprinted(left, a) <==> f in Fingerprinted(right, b) {
      assert HashedFile(matches, a, f) <==> HashedFile(matches, b, f);
    }
    AscendingIsUnique(PathOf, Fingerprinted(left, a), Fingerprinted(right, b));
  }

  /** The file format has room for every file that is hashed. */
  predicate FilesFit(matches: Matcher, root: seq<Child>) {
    RulesIn(root).Some? ==>
      var found := Fingerprinted(Context(RulesIn(root).value, matches), root);
      forall k | 0 <= k < |found| :: Fits(EntryOf(found[k]))
  }

  /**
   Two projects give the same bytes exactly when the same files are included, with the same paths,
   modes and contents. Neither the order of a directory nor anything ignored matters.
   */
  lemma BytesTellTheFiles(matches: Matcher, a: seq<Child>, b: seq<Child>)
    requires Tree(a) && Tree(b) && RulesIn(a).Some? && RulesIn(b).Some?
    requires FilesFit(matches, a) && FilesFit(matches, b)
    ensures Hashed(matches, a) == Hashed(matches, b) <==>
            forall f :: HashedFile(matches, a, f) <==> HashedFile(matches, b, f)
  {
    hide Fingerprinted, Hashes, RulesIn, Tree, Serialize, EntriesOf, Fits;
    if Hashed(matches, a) == Hashed(matches, b) {
      var left := Fingerprinted(Context(RulesIn(a).value, matches), a);
      var right := Fingerprinted(Context(RulesIn(b).value, matches), b);
      FingerprintedAscends(Context(RulesIn(a).value, matches), a);
      FingerprintedAscends(Context(RulesIn(b).value, matches), b);
      EntriesAre(left);
      EntriesAre(right);
      SerializeIsInjective(EntriesOf(left), EntriesOf(right));
      EntriesTell(left, right);
    } else if forall f :: HashedFile(matches, a, f) <==> HashedFile(matches, b, f) {
      SameFilesSameBytes(matches, a, b);
    }
  }

  // Listing a directory in another order

  /** The same directory, perhaps listed in another order, and so on below. */
  predicate SameDirectory(a: seq<Child>, b: seq<Child>)
    decreases a
  {
    && (forall k | 0 <= k < |a| ::
          var other := Lookup(b, a[k].name);
          other.Some? && if a[k].node.Dir? && other.value.Dir?
                         then SameDirectory(a[k].node.children, other.value.children)
                         else a[k].node == other.value)
    && (forall k | 0 <= k < |b| :: Lookup(a, b[k].name).Some?)
  }

  predicate SameNode(a: Option<Node>, b: Option<Node>) {
    if a.Some? && a.value.Dir? && b.Some? && b.value.Dir?
    then SameDirectory(a.value.children, b.value.children)
    else a == b
  }

  lemma LookupIsSame(a: seq<Child>, b: seq<Child>, name: string)
    requires SameDirectory(a, b)
    ensures SameNode(Lookup(a, name), Lookup(b, name))
  {
    if Lookup(a, name).Some? {
      var k := LookupFinds(a, name);
    } else if Lookup(b, name).Some? {
      var k := LookupFinds(b, name);
    }
  }

  lemma {:induction false} AtIsSame(a: seq<Child>, b: seq<Child>, parts: Parts)
    requires SameDirectory(a, b) && parts != []
    ensures SameNode(At(a, parts), At(b, parts))
    decreases |parts|
  {
    hide SameDirectory;
    LookupIsSame(a, b, parts[0]);
    if |parts| > 1 && Lookup(a, parts[0]).Some? && Lookup(b, parts[0]).Some? {
      var left, right := Lookup(a, parts[0]).value, Lookup(b, parts[0]).value;
      if left.Dir? && right.Dir? {
        AtIsSame(left.children, right.children, parts[1..]);
      }
    }
  }

  /** The order in which directories are listed does not change the rules, the files or the bytes. */
  lemma ListingOrderDoesNotMatter(matches: Matcher, a: seq<Child>, b: seq<Child>)
    requires Tree(a) && Tree(b) && SameDirectory(a, b)
    ensures RulesIn(a) == RulesIn(b) && Hashed(matches, a) == Hashed(matches, b)
    ensures RulesIn(a).Some? ==>
              var ctx := Context(RulesIn(a).value, matches); Fingerprinted(ctx, a) == Fingerprinted(ctx, b)
  {
    hide SameDirectory, Fingerprinted, Included, RulesFor, DecodeStrict, Serialize, EntriesOf, Tree;
    LookupIsSame(a, b, DOCKERIGNORE);
    if RulesIn(a).Some? {
      var ctx := Context(RulesIn(a).value, matches);
      FingerprintedAscends(ctx, a);
      FingerprintedAscends(ctx, b);
      forall f ensures f in Fingerprinted(ctx, a) <==> f in Fingerprinted(ctx, b) {
        if f.path != [] {
          AtIsSame(a, b, f.path);
        }
      }
      AscendingIsUnique(PathOf, Fingerprinted(ctx, a), Fingerprinted(ctx, b));
    }
  }
}
