/**
 The overlay lock file: two lines for each wheel, sorted by name. Printing and parsing, what
 each accepts, and how far they undo each other.
 */
module OverlayLock {
  import opened Wrappers
  import opened StringOrder
  import opened TextLines

  /** A stored wheel as the resolver names it, or a wheel read from a lock. */
  datatype Wheel = Wheel(name: string, version: string, digest: string, filename: string)

  /** The files under the artifact store: by digest directory, then by name. */
  type Artifacts = map<string, map<string, string>>

  /**
   Packaging rules and the content hash, which are not modelled further: the name and version in a
   wheel's file name, canonical names, versions in normal form if they are versions at all.
   */
  datatype Rules = Rules(
    identity: string -> Option<(string, string)>, canonical: string -> string,
    normal: string -> Option<string>, hash: string -> string)

  datatype LockError =
    | InvalidWheel(filename: string) | IdentityDiffers(filename: string)
    | Duplicate(name: string) | Protected(name: string) | NotStored(filename: string)
    | OddLines | BadEntry(line: nat) | HashMismatch(name: string) | NameMismatch(name: string) | NotSorted

  const AT := " @ "
  const STORE_URL := "file:///" + "workspace/" + ".amd-ai/" + "artifacts/" + "sha256/"
  const BEFORE_DIGEST := AT + STORE_URL
  const BEFORE_HASH := "    " + "--hash=" + "sha256:"

  // Characters

  predicate NameStart(c: char) { 'a' <= c <= 'z' || '0' <= c <= '9' }

  predicate NameChar(c: char) { NameStart(c) || c == '-' }

  predicate HexChar(c: char) { '0' <= c <= '9' || 'a' <= c <= 'f' }

  predicate Name(text: string) {
    text != "" && NameStart(text[0]) && forall k | 0 <= k < |text| :: NameChar(text[k])
  }

  predicate Digest(text: string) {
    |text| == 64 && forall k | 0 <= k < 64 :: HexChar(text[k])
  }

  predicate WheelFile(text: string) {
    && |text| > 4 && text[|text| - 4..] == ".whl"
    && forall k | 0 <= k < |text| :: !Whitespace(text[k]) && text[k] != '/'
  }

  /** A distribution the parent image owns, however its name is punctuated. */
  predicate IsProtected(name: string) {
    Collapsed(name) in {"torch", "torchvision", "torchaudio", "triton"}
  }

  function Collapsed(name: string): string {
    if name == "" then ""
    else (if name[0] in {'-', '_', '.'} then "" else name[..1]) + Collapsed(name[1..])
  }

  // One entry

  datatype Header = Header(name: string, digest: string, filename: string)

  predicate GoodHeader(h: Header) {
    Name(h.name) && Digest(h.digest) && WheelFile(h.filename)
  }

  function HeaderLine(h: Header): string {
    h.name + (BEFORE_DIGEST + (h.digest + ("/" + (h.filename + " \\"))))
  }

  function HashLine(digest: string): string { BEFORE_HASH + digest }

  /** What follows a literal, if the text begins with it. */
  function Past(literal: string, text: string): Option<string> {
    if literal <= text then Some(text[|literal|..]) else None
  }

  lemma PastIsRest(literal: string, text: string, rest: string)
    ensures Past(literal, text) == Some(rest) <==> text == literal + rest
  {
  }

  function NameLength(text: string): (n: nat)
    ensures n <= |text| && (forall k | 0 <= k < n :: NameChar(text[k]))
    ensures n < |text| ==> !NameChar(text[n])
  {
    if text == "" || !NameChar(text[0]) then 0 else 1 + NameLength(text[1..])
  }

  /** The file name before the final backslash. */
  function ParseFile(text: string): Option<string> {
    if |text| < 2 || text[|text| - 2..] != " \\" || !WheelFile(text[..|text| - 2]) then None
    else Some(text[..|text| - 2])
  }

  /** The digest, the file name and the final backslash. */
  function ParseUrl(text: string): Option<(string, string)> {
    if |text| < 64 || !Digest(text[..64]) then None
    else
      var rest := Past("/", text[64..]);
      if rest.None? || ParseFile(rest.value).None? then None
      else Some((text[..64], ParseFile(rest.value).value))
  }

  function ParseHeader(line: string): Option<Header> {
    var n := NameLength(line);
    var rest := Past(BEFORE_DIGEST, line[n..]);
    if !Name(line[..n]) || rest.None? || ParseUrl(rest.value).None? then None
    else
      var url := ParseUrl(rest.value).value;
      Some(Header(line[..n], url.0, url.1))
  }

  function ParseHash(line: string): Option<string> {
    var rest := Past(BEFORE_HASH, line);
    if rest.None? || !Digest(rest.value) then None else rest
  }

  lemma FileIsExact(text: string, filename: string)
    ensures ParseFile(text) == Some(filename) <==> text == filename + " \\" && WheelFile(filename)
  {
    hide WheelFile;
    if |text| >= 2 {
      assert text == text[..|text| - 2] + text[|text| - 2..];
    }
    if text == filename + " \\" {
      assert text[|text| - 2..] == " \\" && text[..|text| - 2] == filename;
    }
  }

  lemma UrlIsExact(text: string, digest: string, filename: string)
    ensures ParseUrl(text) == Some((digest, filename)) <==>
            text == digest + ("/" + (filename + " \\")) && Digest(digest) && WheelFile(filename)
  {
    hide WheelFile, Past, ParseFile;
    if |text| >= 64 {
      var rest := Past("/", text[64..]);
      assert text == text[..64] + text[64..];
      if rest.Some? {
        PastIsRest("/", text[64..], rest.value);
        FileIsExact(rest.value, filename);
      }
    }
    if text == digest + ("/" + (filename + " \\")) && |digest| == 64 {
      assert text[..64] == digest && text[64..] == "/" + (filename + " \\");
      PastIsRest("/", text[64..], filename + " \\");
      FileIsExact(filename + " \\", filename);
    }
  }

  /** A header line parses to exactly the header it prints. */
  lemma HeaderIsExact(line: string, h: Header)
    ensures ParseHeader(line) == Some(h) <==> line == HeaderLine(h) && GoodHeader(h)
  {
    hide ParseUrl, Past, WheelFile, Digest;
    var n := NameLength(line);
    var url := h.digest + ("/" + (h.filename + " \\"));
    assert line == line[..n] + line[n..];
    if ParseHeader(line) == Some(h) {
      var rest := Past(BEFORE_DIGEST, line[n..]).value;
      PastIsRest(BEFORE_DIGEST, line[n..], rest);
      UrlIsExact(rest, h.digest, h.filename);
    }
    if line == HeaderLine(h) && GoodHeader(h) {
      assert AT[0] == ' ' && (BEFORE_DIGEST + url)[0] == AT[0];
      NameEnds(h.name, BEFORE_DIGEST + url);
      assert line[..n] == h.name && line[n..] == BEFORE_DIGEST + url;
      PastIsRest(BEFORE_DIGEST, line[n..], url);
      UrlIsExact(url, h.digest, h.filename);
    }
  }

  lemma NameEnds(name: string, rest: string)
    requires Name(name) && rest != "" && !NameChar(rest[0])
    ensures NameLength(name + rest) == |name|
  {
    var n := NameLength(name + rest);
    assert (name + rest)[|name|] == rest[0];
    assert forall k | 0 <= k < |name| :: (name + rest)[k] == name[k];
  }

  lemma HashIsExact(line: string, digest: string)
    ensures ParseHash(line) == Some(digest) <==> line == HashLine(digest) && Digest(digest)
  {
    hide Past, Digest;
    PastIsRest(BEFORE_HASH, line, digest);
  }

  // Whole locks

  function HeaderOf(w: Wheel): Header { Header(w.name, w.digest, w.filename) }

  /** The lines a lock of these wheels consists of. */
  function LinesOf(wheels: seq<Wheel>): seq<string> {
    if wheels == [] then []
    else [HeaderLine(HeaderOf(wheels[0])), HashLine(wheels[0].digest)] + LinesOf(wheels[1..])
  }

  predicate Named(wheels: seq<Wheel>, name: string) {
    exists k | 0 <= k < |wheels| :: wheels[k].name == name
  }

  predicate GoodWheel(rules: Rules, w: Wheel) {
    && GoodHeader(HeaderOf(w))
    && rules.identity(w.filename) == Some((w.name, w.version))
    && !IsProtected(w.name)
  }

  predicate Ascending(wheels: seq<Wheel>) {
    forall i, j | 0 <= i < j < |wheels| :: Less(wheels[i].name, wheels[j].name)
  }

  /** What a lock may hold. */
  predicate GoodLock(rules: Rules, wheels: seq<Wheel>) {
    (forall k | 0 <= k < |wheels| :: GoodWheel(rules, wheels[k])) && Ascending(wheels)
  }

  /** One entry after those already read. */
  function ParseEntry(rules: Rules, header: string, hash: string, locked: seq<Wheel>): Result<Wheel, LockError> {
    var h, digest := ParseHeader(header), ParseHash(hash);
    if h.None? || digest.None? then Err(BadEntry(2 * |locked| + 1))
    else
      var name := h.value.name;
      var identity := rules.identity(h.value.filename);
      if digest.value != h.value.digest then Err(HashMismatch(name))
      else if identity.None? then Err(InvalidWheel(h.value.filename))
      else if identity.value.0 != name then Err(NameMismatch(name))
      else if IsProtected(name) then Err(Protected(name))
      else if Named(locked, name) then Err(Duplicate(name))
      else if locked != [] && Less(name, locked[|locked| - 1].name) then Err(NotSorted)
      else Ok(Wheel(name, identity.value.1, digest.value, h.value.filename))
  }

  function ParseEntries(rules: Rules, lines: seq<string>, locked: seq<Wheel>): Result<seq<Wheel>, LockError>
    requires |lines| % 2 == 0
    decreases |lines|
  {
    if lines == [] then Ok(locked)
    else
      var entry := ParseEntry(rules, lines[0], lines[1], locked);
      if entry.Err? then Err(entry.error) else ParseEntries(rules, lines[2..], locked + [entry.value])
  }

  function Parse(rules: Rules, text: string): Result<seq<Wheel>, LockError> {
    var lines := SplitLines(text);
    if |lines| % 2 != 0 then Err(OddLines) else ParseEntries(rules, lines, [])
  }

  lemma EntryIsExact(rules: Rules, header: string, hash: string, locked: seq<Wheel>, w: Wheel)
    requires GoodLock(rules, locked)
    ensures ParseEntry(rules, header, hash, locked) == Ok(w) <==>
            header == HeaderLine(HeaderOf(w)) && hash == HashLine(w.digest) && GoodLock(rules, locked + [w])
  {
    hide ParseHeader, ParseHash, HeaderLine, HashLine, GoodHeader, IsProtected, Less;
    HeaderIsExact(header, HeaderOf(w));
    HashIsExact(hash, w.digest);
    var all := locked + [w];
    assert all[|locked|] == w && all[..|locked|] == locked;
    if ParseEntry(rules, header, hash, locked) == Ok(w) {
      assert ParseHeader(header) == Some(HeaderOf(w)) && ParseHash(hash) == Some(w.digest);
      AscendingMore(locked, w);
      forall k | 0 <= k < |all| ensures GoodWheel(rules, all[k]) {
        assert k < |locked| ==> all[k] == locked[k];
      }
    }
    if header == HeaderLine(HeaderOf(w)) && hash == HashLine(w.digest) && GoodLock(rules, all) {
      assert GoodWheel(rules, all[|locked|]);
      assert Digest(w.digest) by { assert GoodHeader(HeaderOf(w)); IsGood(HeaderOf(w)); }
      LastIsNew(locked, w);
    }
  }

  lemma IsGood(h: Header)
    requires GoodHeader(h)
    ensures Digest(h.digest)
  {
  }

  lemma AscendingMore(locked: seq<Wheel>, w: Wheel)
    requires Ascending(locked) && !Named(locked, w.name)
    requires locked != [] ==> !Less(w.name, locked[|locked| - 1].name)
    ensures Ascending(locked + [w])
  {
    hide Less;
    forall i | 0 <= i < |locked| ensures Less(locked[i].name, w.name) {
      var last := locked[|locked| - 1];
      LessIsTotal(last.name, w.name);
      assert last.name != w.name;
      if i < |locked| - 1 {
        LessIsTransitive(locked[i].name, last.name, w.name);
      }
    }
  }

  lemma LastIsNew(locked: seq<Wheel>, w: Wheel)
    requires Ascending(locked + [w])
    ensures !Named(locked, w.name)
    ensures locked != [] ==> !Less(w.name, locked[|locked| - 1].name)
  {
    hide Less;
    var all := locked + [w];
    forall k | 0 <= k < |locked|
      ensures Less(locked[k].name, w.name) && !Less(w.name, locked[k].name) && locked[k].name != w.name
    {
      assert all[k] == locked[k] && all[|locked|] == w;
      LessIsTotal(locked[k].name, w.name);
    }
  }

  lemma {:induction false} EntriesAreExact(rules: Rules, lines: seq<string>, locked: seq<Wheel>, more: seq<Wheel>)
    requires |lines| % 2 == 0 && GoodLock(rules, locked)
    ensures ParseEntries(rules, lines, locked) == Ok(locked + more) <==>
            lines == LinesOf(more) && GoodLock(rules, locked + more)
    ensures ParseEntries(rules, lines, locked).Ok? ==> locked <= ParseEntries(rules, lines, locked).value
    decreases |lines|
  {
    hide ParseEntry, HeaderLine, HashLine, GoodLock;
    if lines == [] {
      assert locked + [] == locked;
      if more != [] {
        assert |locked + more| != |locked|;
      }
    } else {
      var entry := ParseEntry(rules, lines[0], lines[1], locked);
      if entry.Ok? {
        var w := entry.value;
        EntryIsExact(rules, lines[0], lines[1], locked, w);
        if more != [] {
          EntriesAreExact(rules, lines[2..], locked + [w], more[1..]);
        } else {
          EntriesAreExact(rules, lines[2..], locked + [w], []);
        }
        MoreIs(rules, lines, locked, more, w);
      } else if more != [] {
        NoEntry(rules, lines, locked, more);
      }
    }
  }

  lemma MoreIs(rules: Rules, lines: seq<string>, locked: seq<Wheel>, more: seq<Wheel>, w: Wheel)
    requires |lines| % 2 == 0 && lines != [] && GoodLock(rules, locked)
    requires ParseEntry(rules, lines[0], lines[1], locked) == Ok(w)
    requires more != [] ==>
               (ParseEntries(rules, lines[2..], locked + [w]) == Ok(locked + [w] + more[1..]) <==>
                  lines[2..] == LinesOf(more[1..]) && GoodLock(rules, locked + [w] + more[1..]))
    requires ParseEntries(rules, lines, locked).Ok? ==> locked + [w] <= ParseEntries(rules, lines, locked).value
    ensures ParseEntries(rules, lines, locked) == Ok(locked + more) <==>
            lines == LinesOf(more) && GoodLock(rules, locked + more)
  {
    hide ParseEntry, HeaderLine, HashLine;
    if more != [] {
      if more[0] == w {
        assert locked + more == locked + [w] + more[1..];
        assert lines == [lines[0], lines[1]] + lines[2..];
        EntryIsExact(rules, lines[0], lines[1], locked, w);
      } else {
        assert (locked + more)[|locked|] == more[0] && (locked + [w])[|locked|] == w;
        if lines == LinesOf(more) && GoodLock(rules, locked + more) {
          FirstIsGood(rules, locked, more);
          EntryIsExact(rules, lines[0], lines[1], locked, more[0]);
        }
      }
    }
  }

  lemma FirstIsGood(rules: Rules, locked: seq<Wheel>, more: seq<Wheel>)
    requires more != [] && GoodLock(rules, locked + more)
    ensures GoodLock(rules, locked + [more[0]])
  {
    hide GoodWheel, Less;
    var all, some := locked + more, locked + [more[0]];
    assert forall k | 0 <= k < |some| :: some[k] == all[k];
  }

  lemma NoEntry(rules: Rules, lines: seq<string>, locked: seq<Wheel>, more: seq<Wheel>)
    requires |lines| % 2 == 0 && lines != [] && GoodLock(rules, locked) && more != []
    requires ParseEntry(rules, lines[0], lines[1], locked).Err?
    ensures !(lines == LinesOf(more) && GoodLock(rules, locked + more))
  {
    hide ParseEntry, HeaderLine, HashLine, GoodLock;
    if lines == LinesOf(more) && GoodLock(rules, locked + more) {
      FirstIsGood(rules, locked, more);
      EntryIsExact(rules, lines[0], lines[1], locked, more[0]);
    }
  }

  /** A text parses to these wheels exactly if it consists of their lines and they make a good lock. */
  lemma ParseIsExact(rules: Rules, text: string, wheels: seq<Wheel>)
    ensures Parse(rules, text) == Ok(wheels) <==> SplitLines(text) == LinesOf(wheels) && GoodLock(rules, wheels)
  {
    hide ParseEntries, SplitLines;
    assert [] + wheels == wheels;
    assert GoodLock(rules, []);
    EvenLines(wheels);
    if |SplitLines(text)| % 2 == 0 {
      EntriesAreExact(rules, SplitLines(text), [], wheels);
    }
  }

  lemma {:induction false} EvenLines(wheels: seq<Wheel>)
    ensures |LinesOf(wheels)| == 2 * |wheels|
  {
    if wheels != [] {
      EvenLines(wheels[1..]);
    }
  }

  // Printing

  /** The wheel's file is in the store, under its digest, with that content. */
  predicate Present(rules: Rules, artifacts: Artifacts, w: Wheel) {
    && w.digest in artifacts
    && w.filename in artifacts[w.digest]
    && rules.hash(artifacts[w.digest][w.filename]) == w.digest
  }

  /** The wheels ordered by name, those of one name as they came. */
  function Sorted(wheels: seq<Wheel>): seq<Wheel> { SortBy((w: Wheel) => w.name, wheels) }

  /** The wheel under its canonical name. */
  function Canonical(rules: Rules, w: Wheel): Wheel { w.(name := rules.canonical(w.name)) }

  function AllCanonical(rules: Rules, wheels: seq<Wheel>): (result: seq<Wheel>)
    ensures |result| == |wheels|
    ensures forall k | 0 <= k < |wheels| :: result[k] == Canonical(rules, wheels[k])
  {
    if wheels == [] then [] else [Canonical(rules, wheels[0])] + AllCanonical(rules, wheels[1..])
  }

  /** What the printer says about one wheel, given the names already printed. */
  function RenderError(rules: Rules, artifacts: Artifacts, w: Wheel, names: set<string>): Option<LockError> {
    var identity := rules.identity(w.filename);
    if identity.None? then Some(InvalidWheel(w.filename))
    else if identity.value != (rules.canonical(w.name), w.version) then Some(IdentityDiffers(w.filename))
    else if identity.value.0 in names then Some(Duplicate(identity.value.0))
    else if IsProtected(identity.value.0) then Some(Protected(identity.value.0))
    else if !Present(rules, artifacts, w) then Some(NotStored(w.filename))
    else None
  }

  function RenderEntries(rules: Rules, artifacts: Artifacts, wheels: seq<Wheel>, names: set<string>):
    Result<seq<string>, LockError>
    decreases |wheels|
  {
    if wheels == [] then Ok([])
    else
      var error, w := RenderError(rules, artifacts, wheels[0], names), Canonical(rules, wheels[0]);
      if error.Some? then Err(error.value)
      else
        var rest := RenderEntries(rules, artifacts, wheels[1..], names + {w.name});
        if rest.Err? then rest
        else Ok([HeaderLine(HeaderOf(w)), HashLine(w.digest)] + rest.value)
  }

  function Render(rules: Rules, artifacts: Artifacts, wheels: seq<Wheel>): Result<string, LockError> {
    var lines := RenderEntries(rules, artifacts, Sorted(wheels), {});
    if lines.Err? then Err(lines.error) else Ok(Unlines(lines.value))
  }

  /** What the printer demands of a wheel by itself. */
  predicate Printable(rules: Rules, artifacts: Artifacts, w: Wheel) {
    && rules.identity(w.filename) == Some((rules.canonical(w.name), w.version))
    && !IsProtected(rules.canonical(w.name))
    && Present(rules, artifacts, w)
  }

  predicate Distinct(wheels: seq<Wheel>) {
    forall i, j | 0 <= i < j < |wheels| :: wheels[i].name != wheels[j].name
  }

  predicate AllPrintable(rules: Rules, artifacts: Artifacts, wheels: seq<Wheel>, names: set<string>) {
    && (forall k | 0 <= k < |wheels| ::
          Printable(rules, artifacts, wheels[k]) && rules.canonical(wheels[k].name) !in names)
    && Distinct(AllCanonical(rules, wheels))
  }

  /** The printer accepts the wheels it can print one by one, under distinct names. */
  lemma {:induction false} EntriesPrint(rules: Rules, artifacts: Artifacts, wheels: seq<Wheel>, names: set<string>)
    ensures RenderEntries(rules, artifacts, wheels, names).Ok? <==> AllPrintable(rules, artifacts, wheels, names)
    ensures RenderEntries(rules, artifacts, wheels, names).Ok? ==>
              RenderEntries(rules, artifacts, wheels, names).value == LinesOf(AllCanonical(rules, wheels))
    decreases |wheels|
  {
    hide HeaderLine, HashLine, AllPrintable, RenderError;
    if wheels == [] {
      NothingPrints(rules, artifacts, wheels, names);
    } else {
      var w, rest := Canonical(rules, wheels[0]), wheels[1..];
      EntriesPrint(rules, artifacts, rest, names + {w.name});
      OneMorePrints(rules, artifacts, wheels, names);
      assert AllCanonical(rules, wheels)[1..] == AllCanonical(rules, rest);
    }
  }

  lemma NothingPrints(rules: Rules, artifacts: Artifacts, wheels: seq<Wheel>, names: set<string>)
    requires wheels == []
    ensures AllPrintable(rules, artifacts, wheels, names)
  {
  }

  lemma OneMorePrints(rules: Rules, artifacts: Artifacts, wheels: seq<Wheel>, names: set<string>)
    requires wheels != []
    ensures AllPrintable(rules, artifacts, wheels, names) <==>
            && RenderError(rules, artifacts, wheels[0], names).None?
            && AllPrintable(rules, artifacts, wheels[1..], names + {rules.canonical(wheels[0].name)})
  {
    hide IsProtected, Present;
    var w, rest := Canonical(rules, wheels[0]), wheels[1..];
    var all, others := AllCanonical(rules, wheels), AllCanonical(rules, rest);
    assert all == [w] + others;
    if AllPrintable(rules, artifacts, wheels, names) {
      assert Printable(rules, artifacts, wheels[0]);
      forall k | 0 <= k < |rest|
        ensures Printable(rules, artifacts, rest[k]) && rules.canonical(rest[k].name) !in names + {w.name}
      {
        assert rest[k] == wheels[k + 1] && all[k + 1].name != all[0].name;
      }
      DistinctRest(all);
      assert all[1..] == others;
    }
    if RenderError(rules, artifacts, wheels[0], names).None? && AllPrintable(rules, artifacts, rest, names + {w.name}) {
      DistinctAll(w, others);
      forall k | 0 <= k < |wheels|
        ensures Printable(rules, artifacts, wheels[k]) && rules.canonical(wheels[k].name) !in names
      {
        assert k > 0 ==> wheels[k] == rest[k - 1];
      }
    }
  }

  lemma DistinctRest(all: seq<Wheel>)
    requires all != [] && Distinct(all)
    ensures Distinct(all[1..])
  {
  }

  lemma DistinctAll(w: Wheel, others: seq<Wheel>)
    requires Distinct(others) && forall k | 0 <= k < |others| :: others[k].name != w.name
    ensures Distinct([w] + others)
  {
  }

  predicate InOrder(wheels: seq<Wheel>) { InOrderBy((w: Wheel) => w.name, wheels) }

  // Printing and parsing undo each other

  lemma {:induction false} EntryLinesAreOneLine(wheels: seq<Wheel>)
    requires forall k | 0 <= k < |wheels| :: GoodHeader(HeaderOf(wheels[k]))
    ensures forall k | 0 <= k < |LinesOf(wheels)| :: OneLine(LinesOf(wheels)[k])
  {
    hide HeaderLine, HashLine, GoodHeader;
    if wheels != [] {
      EntryLinesAreOneLine(wheels[1..]);
      EntryIsOneLine(HeaderOf(wheels[0]));
    }
  }

  lemma EntryIsOneLine(h: Header)
    requires GoodHeader(h)
    ensures OneLine(HeaderLine(h)) && OneLine(HashLine(h.digest))
  {
    LiteralsAreOneLine();
    assert OneLine(h.name) && OneLine(h.digest) && OneLine(h.filename);
    JoinedIsOneLine(h.filename, " \\");
    JoinedIsOneLine("/", h.filename + " \\");
    JoinedIsOneLine(h.digest, "/" + (h.filename + " \\"));
    JoinedIsOneLine(BEFORE_DIGEST, h.digest + ("/" + (h.filename + " \\")));
    JoinedIsOneLine(h.name, BEFORE_DIGEST + (h.digest + ("/" + (h.filename + " \\"))));
    JoinedIsOneLine(BEFORE_HASH, h.digest);
  }

  lemma JoinedIsOneLine(a: string, b: string)
    requires OneLine(a) && OneLine(b)
    ensures OneLine(a + b)
  {
  }

  lemma LiteralsAreOneLine()
    ensures OneLine(BEFORE_DIGEST) && OneLine(BEFORE_HASH) && OneLine(" \\") && OneLine("/")
  {
    UrlIsOneLine();
    HashIsOneLine();
    assert OneLine(AT);
    JoinedIsOneLine(AT, STORE_URL);
  }

  lemma UrlIsOneLine()
    ensures OneLine(STORE_URL)
  {
    assert OneLine("file:///") && OneLine("workspace/") && OneLine(".amd-ai/");
    assert OneLine("artifacts/") && OneLine("sha256/");
    JoinedIsOneLine("file:///", "workspace/");
    JoinedIsOneLine("file:///" + "workspace/", ".amd-ai/");
    JoinedIsOneLine("file:///" + "workspace/" + ".amd-ai/", "artifacts/");
    JoinedIsOneLine("file:///" + "workspace/" + ".amd-ai/" + "artifacts/", "sha256/");
  }

  lemma HashIsOneLine()
    ensures OneLine(BEFORE_HASH)
  {
    assert OneLine("    ") && OneLine("--hash=") && OneLine("sha256:");
    JoinedIsOneLine("    ", "--hash=");
    JoinedIsOneLine("    " + "--hash=", "sha256:");
  }

  /** What a printed lock consists of. */
  lemma PrintedOrder(rules: Rules, artifacts: Artifacts, wheels: seq<Wheel>)
    requires Render(rules, artifacts, wheels).Ok?
    ensures var named := AllCanonical(rules, Sorted(wheels));
            && Render(rules, artifacts, wheels).value == Unlines(LinesOf(named))
            && Distinct(named)
            && (forall k | 0 <= k < |named| ::
                  rules.identity(named[k].filename) == Some((named[k].name, named[k].version))
                  && !IsProtected(named[k].name))
  {
    hide LinesOf, Unlines, IsProtected, RenderEntries, Present;
    var sorted := Sorted(wheels);
    EntriesPrint(rules, artifacts, sorted, {});
    forall k | 0 <= k < |sorted| ensures Printable(rules, artifacts, sorted[k]) {
    }
  }

  /**
   A printed lock of wheels with well-formed names, digests and files is parsed again exactly
   when the canonical names come in the order of the names the wheels were sorted by; the
   result is then those wheels, canonically named.
   */
  lemma PrintedLockParses(rules: Rules, artifacts: Artifacts, wheels: seq<Wheel>)
    requires Render(rules, artifacts, wheels).Ok?
    requires var named := AllCanonical(rules, Sorted(wheels));
             forall k | 0 <= k < |named| :: GoodHeader(HeaderOf(named[k]))
    ensures var named := AllCanonical(rules, Sorted(wheels));
            var parsed := Parse(rules, Render(rules, artifacts, wheels).value);
            && (parsed.Ok? <==> InOrder(named))
            && (parsed.Ok? ==> parsed.value == named)
  {
    hide LinesOf, Unlines, IsProtected, Render, GoodHeader, Less, Parse, SplitLines;
    var named := AllCanonical(rules, Sorted(wheels));
    var text := Render(rules, artifacts, wheels).value;
    PrintedOrder(rules, artifacts, wheels);
    EntryLinesAreOneLine(named);
    SplitUndoesUnlines(LinesOf(named));
    OrderAscends(named);
    ParseIsExact(rules, text, named);
    if Parse(rules, text).Ok? {
      ParseIsExact(rules, text, Parse(rules, text).value);
      LinesAreTheirs(rules, named, Parse(rules, text).value);
    }
  }

  lemma OrderAscends(wheels: seq<Wheel>)
    requires Distinct(wheels)
    ensures Ascending(wheels) <==> InOrder(wheels)
  {
    hide Less;
    forall i, j | 0 <= i < j < |wheels|
      ensures Less(wheels[i].name, wheels[j].name) <==> !Less(wheels[j].name, wheels[i].name)
    {
      LessIsTotal(wheels[i].name, wheels[j].name);
    }
  }

  /** Lines say which wheels they are of. */
  lemma {:induction false} LinesAreTheirs(rules: Rules, a: seq<Wheel>, b: seq<Wheel>)
    requires LinesOf(a) == LinesOf(b)
    requires forall k | 0 <= k < |a| ::
               GoodHeader(HeaderOf(a[k])) && rules.identity(a[k].filename) == Some((a[k].name, a[k].version))
    requires forall k | 0 <= k < |b| ::
               GoodHeader(HeaderOf(b[k])) && rules.identity(b[k].filename) == Some((b[k].name, b[k].version))
    ensures a == b
    decreases |a|
  {
    hide HeaderLine, HashLine, GoodHeader;
    EvenLines(a);
    EvenLines(b);
    if a != [] {
      assert LinesOf(a)[0] == HeaderLine(HeaderOf(a[0])) && LinesOf(b)[0] == HeaderLine(HeaderOf(b[0]));
      HeaderIsExact(LinesOf(a)[0], HeaderOf(a[0]));
      HeaderIsExact(LinesOf(b)[0], HeaderOf(b[0]));
      assert a[0] == b[0];
      assert LinesOf(a)[2..] == LinesOf(a[1..]) && LinesOf(b)[2..] == LinesOf(b[1..]);
      LinesAreTheirs(rules, a[1..], b[1..]);
      assert a == [a[0]] + a[1..] && b == [b[0]] + b[1..];
    }
  }

  /** Wheels under canonical names come back from their lock, sorted. */
  lemma CanonicalLockRoundTrips(rules: Rules, artifacts: Artifacts, wheels: seq<Wheel>)
    requires Render(rules, artifacts, wheels).Ok?
    requires forall k | 0 <= k < |wheels| ::
               rules.canonical(wheels[k].name) == wheels[k].name && GoodHeader(HeaderOf(wheels[k]))
    ensures Parse(rules, Render(rules, artifacts, wheels).value) == Ok(Sorted(wheels))
  {
    hide Render, Parse, GoodHeader, Less;
    var sorted := Sorted(wheels);
    SortSorts((w: Wheel) => w.name, wheels);
    forall k | 0 <= k < |sorted| ensures Canonical(rules, sorted[k]) == sorted[k] && GoodHeader(HeaderOf(sorted[k])) {
      assert sorted[k] in multiset(sorted);
      assert sorted[k] in multiset(wheels);
      var j :| 0 <= j < |wheels| && wheels[j] == sorted[k];
    }
    assert AllCanonical(rules, sorted) == sorted;
    PrintedLockParses(rules, artifacts, wheels);
  }

  /**
   A parsed lock whose files are in the store is printed again, as the same text exactly when
   that has line feeds only and ends in one.
   */
  lemma ParsedLockPrints(rules: Rules, artifacts: Artifacts, text: string)
    requires Parse(rules, text).Ok?
    requires var wheels := Parse(rules, text).value;
             forall k | 0 <= k < |wheels| ::
               Present(rules, artifacts, wheels[k]) && rules.canonical(wheels[k].name) == wheels[k].name
    ensures Render(rules, artifacts, Parse(rules, text).value) == Ok(Unlines(SplitLines(text)))
    ensures Render(rules, artifacts, Parse(rules, text).value) == Ok(text) <==> LineFeedsOnly(text)
  {
    hide Parse, LinesOf, SplitLines, Unlines, Less, IsProtected, Present, GoodHeader, RenderEntries;
    var wheels := Parse(rules, text).value;
    ParseIsExact(rules, text, wheels);
    assert Distinct(wheels) by { AscendingIsDistinct(wheels); }
    OrderAscends(wheels);
    SortedStays((w: Wheel) => w.name, wheels);
    assert AllCanonical(rules, wheels) == wheels;
    forall k | 0 <= k < |wheels| ensures Printable(rules, artifacts, wheels[k]) {
      assert GoodWheel(rules, wheels[k]);
    }
    EntriesPrint(rules, artifacts, wheels, {});
    UnlinesUndoesSplit(text);
  }

  lemma AscendingIsDistinct(wheels: seq<Wheel>)
    requires Ascending(wheels)
    ensures Distinct(wheels)
  {
    hide Less;
    forall i, j | 0 <= i < j < |wheels| ensures wheels[i].name != wheels[j].name {
      LessIsTotal(wheels[i].name, wheels[j].name);
    }
  }

  /** Sorting by raw names can print a lock that does not parse: `B` sorts before `a`, `b` does not. */
  lemma RawOrderCanMislead(rules: Rules, digest: string, first: string, second: string)
    requires rules.canonical("B") == "b" && rules.canonical("a") == "a"
    requires rules.identity("b-1.whl") == Some(("b", "1")) && rules.identity("a-1.whl") == Some(("a", "1"))
    requires Digest(digest) && rules.hash(first) == rules.hash(second) == digest
    ensures var artifacts := map[digest := map["b-1.whl" := first, "a-1.whl" := second]];
            var wheels := [Wheel("a", "1", digest, "a-1.whl"), Wheel("B", "1", digest, "b-1.whl")];
            && Render(rules, artifacts, wheels).Ok?
            && Parse(rules, Render(rules, artifacts, wheels).value).Err?
  {
    hide RenderEntries, Parse, Unlines, LinesOf, Digest, Sorted, Printable, IsProtected, GoodHeader;
    var artifacts := map[digest := map["b-1.whl" := first, "a-1.whl" := second]];
    var a, b := Wheel("a", "1", digest, "a-1.whl"), Wheel("B", "1", digest, "b-1.whl");
    PairIsSorted(b, a);
    PairPrints(rules, artifacts, b, a);
    var named := AllCanonical(rules, [b, a]);
    EntriesPrint(rules, artifacts, [b, a], {});
    ShortHeader("b", digest, "b-1.whl");
    ShortHeader("a", digest, "a-1.whl");
    assert named[0].name == "b" && named[1].name == "a" && Less("a", "b");
    PrintedLockParses(rules, artifacts, [a, b]);
  }

  lemma PairIsSorted(b: Wheel, a: Wheel)
    requires b.name == "B" && a.name == "a"
    ensures Sorted([a, b]) == [b, a]
  {
    var key := (w: Wheel) => w.name;
    assert Less("B", "a") && !Less("a", "B");
    assert [a, b][1..] == [b] && [b][1..] == [];
    assert SortBy(key, [b]) == InsertBy(key, b, []) == [b];
    assert SortBy(key, [a, b]) == InsertBy(key, a, [b]);
    assert InsertBy(key, a, []) == [a];
  }

  lemma PairPrints(rules: Rules, artifacts: Artifacts, b: Wheel, a: Wheel)
    requires b.name == "B" && a.name == "a" && b.version == a.version == "1"
    requires rules.canonical("B") == "b" && rules.canonical("a") == "a"
    requires rules.identity(b.filename) == Some(("b", "1")) && rules.identity(a.filename) == Some(("a", "1"))
    requires Present(rules, artifacts, b) && Present(rules, artifacts, a)
    ensures AllPrintable(rules, artifacts, [b, a], {})
  {
    hide Present, IsProtected;
    ShortIsNotProtected("a");
    ShortIsNotProtected("b");
    assert forall k | 0 <= k < |[b, a]| :: [b, a][k] == b || [b, a][k] == a;
  }

  lemma ShortHeader(name: string, digest: string, filename: string)
    requires name == "a" || name == "b"
    requires filename == name + "-1.whl" && Digest(digest)
    ensures GoodHeader(Header(name, digest, filename))
  {
    assert filename[3..] == ".whl";
  }

  lemma ShortIsNotProtected(name: string)
    requires |name| == 1
    ensures !IsProtected(name)
  {
    assert name[1..] == "";
    assert |Collapsed(name)| <= 1;
  }

  // The loops

  /** The whole comes to the lines so far and what the rest comes to. */
  ghost predicate Renders(
    whole: Result<seq<string>, LockError>, lines: seq<string>, rest: Result<seq<string>, LockError>)
  {
    whole == if rest.Err? then rest else Ok(lines + rest.value)
  }

  lemma RendersMore(
    rules: Rules, artifacts: Artifacts, whole: Result<seq<string>, LockError>, lines: seq<string>,
    w: Wheel, wheels: seq<Wheel>, names: set<string>)
    requires Renders(whole, lines, RenderEntries(rules, artifacts, [w] + wheels, names))
    ensures var error, name := RenderError(rules, artifacts, w, names), rules.canonical(w.name);
            var entry := [HeaderLine(Header(name, w.digest, w.filename)), HashLine(w.digest)];
            if error.Some? then whole == Err(error.value)
            else Renders(whole, lines + entry, RenderEntries(rules, artifacts, wheels, names + {name}))
  {
    hide RenderError, HeaderLine, HashLine;
    assert ([w] + wheels)[1..] == wheels;
    var name := rules.canonical(w.name);
    var entry := [HeaderLine(Header(name, w.digest, w.filename)), HashLine(w.digest)];
    var rest := RenderEntries(rules, artifacts, wheels, names + {name});
    if rest.Ok? {
      assert lines + (entry + rest.value) == lines + entry + rest.value;
    }
  }

  lemma RendersNone(rules: Rules, artifacts: Artifacts, wheels: seq<Wheel>, lines: seq<string>, names: set<string>)
    ensures var whole := RenderEntries(rules, artifacts, wheels, {}); Renders(whole, [], whole)
    ensures RenderEntries(rules, artifacts, [], names) == Ok([]) && lines + [] == lines
  {
    var whole := RenderEntries(rules, artifacts, wheels, {});
    assert whole.Ok? ==> [] + whole.value == whole.value;
  }

  method RenderLock(rules: Rules, artifacts: Artifacts, wheels: seq<Wheel>) returns (text: Result<string, LockError>)
    ensures text == Render(rules, artifacts, wheels)
  {
    hide RenderError, RenderEntries, HeaderLine, HashLine, Unlines, Sorted;
    var ordered := Sorted(wheels);
    var names: set<string> := {};
    var lines: seq<string> := [];
    ghost var whole := RenderEntries(rules, artifacts, ordered, {});
    assert ordered[0..] == ordered;
    RendersNone(rules, artifacts, ordered, [], {});
    for k := 0 to |ordered|
      invariant Renders(whole, lines, RenderEntries(rules, artifacts, ordered[k..], names))
    {
      var w := ordered[k];
      assert ordered[k..] == [w] + ordered[k + 1..];
      RendersMore(rules, artifacts, whole, lines, w, ordered[k + 1..], names);
      var error := RenderError(rules, artifacts, w, names);
      if error.Some? {
        return Err(error.value);
      }
      var name := rules.canonical(w.name);
      lines := lines + [HeaderLine(Header(name, w.digest, w.filename)), HashLine(w.digest)];
      names := names + {name};
    }
    assert ordered[|ordered|..] == [];
    RendersNone(rules, artifacts, ordered, lines, names);
    text := Ok(Unlines(lines));
  }

  method ParseLock(rules: Rules, text: string) returns (parsed: Result<seq<Wheel>, LockError>)
    ensures parsed == Parse(rules, text)
  {
    hide ParseEntry;
    if text == "" {
      return Ok([]);
    }
    var lines := SplitLines(text);
    if |lines| % 2 != 0 {
      return Err(OddLines);
    }
    var locked: seq<Wheel> := [];
    var index := 0;
    while index < |lines|
      invariant index <= |lines| && index % 2 == 0
      invariant ParseEntries(rules, lines, []) == ParseEntries(rules, lines[index..], locked)
    {
      var entry := ParseEntry(rules, lines[index], lines[index + 1], locked);
      assert lines[index..][2..] == lines[index + 2..];
      if entry.Err? {
        return Err(entry.error);
      }
      locked := locked + [entry.value];
      index := index + 2;
    }
    assert lines[index..] == [];
    parsed := Ok(locked);
  }

  method ValidateLockArtifacts(rules: Rules, artifacts: Artifacts, locked: seq<Wheel>)
    returns (valid: Result<seq<Wheel>, LockError>)
    ensures valid.Ok? <==> forall k | 0 <= k < |locked| :: Present(rules, artifacts, locked[k])
    ensures valid.Ok? ==> valid.value == locked
    ensures valid.Err? ==> exists k | 0 <= k < |locked| ::
              !Present(rules, artifacts, locked[k]) && valid.error == NotStored(locked[k].filename)
              && forall j | 0 <= j < k :: Present(rules, artifacts, locked[j])
  {
    var paths: seq<Wheel> := [];
    for k := 0 to |locked|
      invariant paths == locked[..k]
      invariant forall j | 0 <= j < k :: Present(rules, artifacts, locked[j])
    {
      if !Present(rules, artifacts, locked[k]) {
        return Err(NotStored(locked[k].filename));
      }
      paths := paths + [locked[k]];
    }
    valid := Ok(paths);
  }
}
