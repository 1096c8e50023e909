/**
 Cutting a command's output into records while it arrives: newlines are normalised, text
 without a newline waits, and what waits never grows past 64 KiB.
 */
module Records {
  import opened Wrappers
  import opened Utf8

  const MAX_RECORD_BYTES: nat := 65536

  /** Complete records, and the text that waits for more. */
  datatype Split = Split(records: seq<string>, pending: string)
  {
    function After(record: string): Split { Split([record] + records, pending) }
  }

  /** The text after a carriage return and the line feed that may belong to it. */
  function AfterReturn(v: string): string
    requires v != ""
  {
    if |v| > 1 && v[1] == '\n' then v[2..] else v[1..]
  }

  /** Reads `v` with `line` already read of the present line. */
  function Scan(line: string, v: string, final: bool): Split
    decreases |v|
  {
    if v == "" then Split([], line)
    else if v[0] == '\n' then Scan("", v[1..], final).After(line + "\n")
    else if v[0] == '\r' then
      if |v| == 1 && !final then Split([], line + "\r")
      else Scan("", AfterReturn(v), final).After(line + "\n")
    else Scan(line + [v[0]], v[1..], final)
  }

  /** Cuts an overlong text between characters. */
  function Chop(pending: string): Split
    decreases |pending|
  {
    if Size(pending) <= MAX_RECORD_BYTES then Split([], pending)
    else
      var prefix := PrefixWithin(pending, MAX_RECORD_BYTES);
      PrefixIsSome(pending, MAX_RECORD_BYTES);
      Chop(pending[|prefix|..]).After(prefix)
  }

  lemma {:induction false} PrefixIsSome(text: string, k: nat)
    requires Size(text) > k >= 4
    ensures 0 < |PrefixWithin(text, k)| < |text|
    ensures Size(text) == Size(PrefixWithin(text, k)) + Size(text[|PrefixWithin(text, k)|..])
    ensures Size(PrefixWithin(text, k)) <= k
  {
    PrefixFits(text, k);
    var prefix := PrefixWithin(text, k);
    assert text == prefix + text[|prefix|..];
    SizeOfConcat(prefix, text[|prefix|..]);
    assert |prefix| == |text| ==> prefix == text;
  }

  lemma {:induction false} PrefixFits(text: string, k: nat)
    ensures Size(PrefixWithin(text, k)) <= k
  {
    if text != "" && Width(text[0]) <= k {
      var prefix := PrefixWithin(text, k);
      PrefixFits(text[1..], k - Width(text[0]));
      assert prefix[1..] == PrefixWithin(text[1..], k - Width(text[0]));
    }
  }

  function Complete(value: string, final: bool): Split {
    var scanned := Scan("", value, final);
    var chopped := Chop(scanned.pending);
    var records := scanned.records + chopped.records;
    if final && chopped.pending != "" then Split(records + [chopped.pending], "")
    else Split(records, chopped.pending)
  }

  /** What the chunks give, one after the other, with `pending` waiting at first. */
  function Feed(pending: string, chunks: seq<string>): Split
    decreases |chunks|
  {
    if chunks == [] then Split([], pending)
    else
      var first := Complete(pending + chunks[0], false);
      var rest := Feed(first.pending, chunks[1..]);
      Split(first.records + rest.records, rest.pending)
  }

  /** The records of a whole stream: its chunks, then what the decoder still held. */
  function Drain(chunks: seq<string>, last: string): seq<string> {
    var fed := Feed("", chunks);
    fed.records + Complete(fed.pending + last, true).records
  }

  /** The text with CRLF and lone CR turned into LF. */
  function Normalize(text: string): string
    decreases |text|
  {
    if text == "" then ""
    else if text[0] == '\r' then "\n" + Normalize(AfterReturn(text))
    else [text[0]] + Normalize(text[1..])
  }

  /** The lines of a normalised text, each with its line feed. */
  function LinesOf(line: string, text: string): seq<string>
    decreases |text|
  {
    if text == "" then if line == "" then [] else [line]
    else if text[0] == '\n' then [line + "\n"] + LinesOf("", text[1..])
    else LinesOf(line + [text[0]], text[1..])
  }

  function Lines(text: string): seq<string> { LinesOf("", Normalize(text)) }

  predicate Plain(text: string) {
    forall k | 0 <= k < |text| :: text[k] != '\n' && text[k] != '\r'
  }

  /** What may wait: text of one line, perhaps with a carriage return that a line feed may follow. */
  predicate Open(text: string) {
    Plain(text) || (text != "" && Plain(text[..|text| - 1]) && text[|text| - 1] == '\r')
  }

  // Nothing is lost

  lemma {:induction false} NormalizeAfterPlain(line: string, rest: string)
    requires Plain(line)
    ensures Normalize(line + rest) == line + Normalize(rest)
  {
    if line == "" {
      assert line + rest == rest;
    } else {
      assert (line + rest)[1..] == line[1..] + rest;
      NormalizeAfterPlain(line[1..], rest);
    }
  }

  lemma AddsRecord(record: string, s: Split)
    ensures Concat(s.After(record).records) == record + Concat(s.records)
  {
    assert s.After(record).records[1..] == s.records;
  }

  lemma {:induction false} ScanIsOpen(line: string, v: string, final: bool)
    requires Plain(line)
    ensures Open(Scan(line, v, final).pending) && (final ==> Plain(Scan(line, v, final).pending))
    decreases |v|
  {
    if v != "" {
      if v[0] == '\n' {
        ScanIsOpen("", v[1..], final);
      } else if v[0] == '\r' {
        if |v| != 1 || final {
          ScanIsOpen("", AfterReturn(v), final);
        }
      } else {
        ScanIsOpen(line + [v[0]], v[1..], final);
      }
    }
  }

  /** A line that ends gives its record, and the rest of the text the rest. */
  lemma LineEnds(line: string, later: string, s: Split, kept: string)
    requires later == Concat(s.records) + kept
    ensures line + ("\n" + later) == Concat(s.After(line + "\n").records) + kept
  {
    hide Concat;
    AddsRecord(line + "\n", s);
    Regroup(line, "\n", later);
    Regroup(line + "\n", Concat(s.records), kept);
  }

  lemma {:induction false} ScanKeepsText(line: string, v: string, final: bool, rest: string)
    requires Plain(line) && (final ==> rest == "")
    ensures var s := Scan(line, v, final);
            line + Normalize(v + rest) == Concat(s.records) + Normalize(s.pending + rest)
    decreases |v|
  {
    hide Concat;
    EmptyIsNormal();
    var s := Scan(line, v, final);
    if v == "" {
      NormalizeAfterPlain(line, rest);
      assert v + rest == rest;
    } else if v[0] == '\n' {
      var t := Scan("", v[1..], final);
      ScanKeepsText("", v[1..], final, rest);
      assert (v + rest)[1..] == v[1..] + rest;
      LineEnds(line, Normalize(v[1..] + rest), t, Normalize(t.pending + rest));
    } else if v[0] == '\r' {
      if |v| == 1 && !final {
        NormalizeAfterPlain(line, "\r" + rest);
        Regroup(line, "\r", rest);
        assert v + rest == "\r" + rest;
      } else {
        var t := Scan("", AfterReturn(v), final);
        ScanKeepsText("", AfterReturn(v), final, rest);
        assert AfterReturn(v + rest) == AfterReturn(v) + rest;
        LineEnds(line, Normalize(AfterReturn(v) + rest), t, Normalize(t.pending + rest));
      }
    } else {
      ScanKeepsText(line + [v[0]], v[1..], final, rest);
      assert (v + rest)[1..] == v[1..] + rest;
      Regroup(line, [v[0]], Normalize(v[1..] + rest));
    }
  }

  lemma EmptyIsNormal()
    ensures Normalize("") == "" && Concat([]) == ""
  {
  }

  predicate Unfinished(record: string) {
    record != "" && forall k | 0 <= k < |record| :: record[k] != '\n'
  }

  lemma OpenFrom(text: string, k: nat)
    requires Open(text) && k < |text|
    ensures Plain(text[..k]) && Open(text[k..])
    ensures Plain(text) ==> Plain(text[k..])
  {
    if !Plain(text) {
      var body := text[..|text| - 1];
      assert text[..k] == body[..k];
      assert text[k..][..|text| - k - 1] == body[k..];
    }
  }

  lemma {:induction false} ChopIsBounded(pending: string)
    requires Open(pending)
    ensures var s := Chop(pending);
            && Open(s.pending) && Size(s.pending) <= MAX_RECORD_BYTES
            && (Plain(pending) ==> Plain(s.pending))
            && (forall k | 0 <= k < |s.records| :: Unfinished(s.records[k]))
            && (pending != "" ==> s.pending != "")
    decreases |pending|
  {
    if Size(pending) > MAX_RECORD_BYTES {
      var prefix := PrefixWithin(pending, MAX_RECORD_BYTES);
      PrefixIsSome(pending, MAX_RECORD_BYTES);
      OpenFrom(pending, |prefix|);
      ChopIsBounded(pending[|prefix|..]);
    }
  }

  lemma {:induction false} ChopKeepsText(pending: string, rest: string)
    requires Open(pending)
    ensures var s := Chop(pending);
            Normalize(pending + rest) == Concat(s.records) + Normalize(s.pending + rest)
    decreases |pending|
  {
    hide Concat, Normalize, Open, Plain, Size, PrefixWithin;
    EmptyIsNormal();
    if Size(pending) <= MAX_RECORD_BYTES {
      assert "" + Normalize(pending + rest) == Normalize(pending + rest);
    } else {
      PrefixIsSome(pending, MAX_RECORD_BYTES);
      var prefix := PrefixWithin(pending, MAX_RECORD_BYTES);
      var left := pending[|prefix|..];
      var s := Chop(left);
      OpenFrom(pending, |prefix|);
      assert pending == prefix + left;
      Regroup(prefix, left, rest);
      NormalizeAfterPlain(prefix, left + rest);
      ChopKeepsText(left, rest);
      AddsRecord(prefix, s);
      Regroup(prefix, Concat(s.records), Normalize(s.pending + rest));
    }
  }

  /** What waits after a step fits the bound, and nothing waits after the last. */
  lemma CompleteIsBounded(value: string, final: bool)
    ensures var s := Complete(value, final);
            && Open(s.pending) && Size(s.pending) <= MAX_RECORD_BYTES
            && (final ==> s.pending == "")
  {
    hide Scan, Chop;
    ScanIsOpen("", value, final);
    ChopIsBounded(Scan("", value, final).pending);
  }

  /** What a step emits and keeps is what it was given. */
  lemma CompleteKeepsText(value: string, final: bool, rest: string)
    requires final ==> rest == ""
    ensures var s := Complete(value, final);
            Normalize(value + rest) == Concat(s.records) + Normalize(s.pending + rest)
  {
    hide Scan, Chop, Normalize, Concat;
    var scanned := Scan("", value, final);
    var chopped := Chop(scanned.pending);
    var all := scanned.records + chopped.records;
    ScanIsOpen("", value, final);
    ScanKeepsText("", value, final, rest);
    ChopIsBounded(scanned.pending);
    ChopKeepsText(scanned.pending, rest);
    ConcatOfConcat(scanned.records, chopped.records);
    var kept := Normalize(chopped.pending + rest);
    Regroup(Concat(scanned.records), Concat(chopped.records), kept);
    assert Normalize(value + rest) == Concat(all) + kept;
    if final {
      ConcatOfConcat(all, [chopped.pending]);
      ConcatOfOne(chopped.pending);
      NormalizeAfterPlain(chopped.pending, "");
      EmptyIsNormal();
      assert chopped.pending + "" == chopped.pending && value + "" == value;
      assert "" + "" == "";
      assert kept == chopped.pending;
    }
  }

  lemma {:induction false} FeedKeepsText(pending: string, chunks: seq<string>, rest: string)
    ensures var s := Feed(pending, chunks);
            Normalize((pending + Concat(chunks)) + rest) == Concat(s.records) + Normalize(s.pending + rest)
    decreases |chunks|
  {
    hide Complete, Normalize;
    if chunks == [] {
      assert pending + "" == pending;
    } else {
      var first := Complete(pending + chunks[0], false);
      var s := Feed(first.pending, chunks[1..]);
      var more := Concat(chunks[1..]);
      CompleteKeepsText(pending + chunks[0], false, more + rest);
      FeedKeepsText(first.pending, chunks[1..], rest);
      ConcatOfConcat(first.records, s.records);
      Regroup(pending, chunks[0], more);
      Regroup(pending + chunks[0], more, rest);
      Regroup(first.pending, more, rest);
      Regroup(Concat(first.records), Concat(s.records), Normalize(s.pending + rest));
    }
  }

  lemma {:induction false} FeedIsBounded(pending: string, chunks: seq<string>)
    requires Open(pending) && Size(pending) <= MAX_RECORD_BYTES
    ensures Open(Feed(pending, chunks).pending) && Size(Feed(pending, chunks).pending) <= MAX_RECORD_BYTES
    decreases |chunks|
  {
    hide Complete, Open, Size;
    if chunks != [] {
      CompleteIsBounded(pending + chunks[0], false);
      FeedIsBounded(Complete(pending + chunks[0], false).pending, chunks[1..]);
    }
  }

  /**
   However a text is cut into chunks, its records add up to the normalised text, at most
   64 KiB wait between chunks, and nothing waits at the end.
   */
  lemma RecordsAddUp(chunks: seq<string>, last: string)
    ensures Concat(Drain(chunks, last)) == Normalize(Concat(chunks) + last)
    ensures Size(Feed("", chunks).pending) <= MAX_RECORD_BYTES
    ensures Complete(Feed("", chunks).pending + last, true).pending == ""
  {
    hide Complete, Feed, Normalize, Concat;
    var fed := Feed("", chunks);
    var final := Complete(fed.pending + last, true);
    EmptyIsNormal();
    FeedIsBounded("", chunks);
    CompleteIsBounded(fed.pending + last, true);
    FeedKeepsText("", chunks, last);
    CompleteKeepsText(fed.pending + last, true, "");
    ConcatOfConcat(fed.records, final.records);
    assert "" + Concat(chunks) == Concat(chunks);
    assert fed.pending + last + "" == fed.pending + last;
    assert final.pending + "" == "";
    assert Concat(final.records) + "" == Concat(final.records);
  }

  // The records are the lines

  predicate Terminated(record: string) {
    && record != "" && record[|record| - 1] == '\n'
    && forall k | 0 <= k < |record| - 1 :: record[k] != '\n'
  }

  /** Every record ends at a line feed and nowhere else; the last one may lack it. */
  predicate Lined(records: seq<string>) {
    forall k | 0 <= k < |records| ::
      Terminated(records[k]) || (k == |records| - 1 && Unfinished(records[k]))
  }

  /** Lines that add up to the same text are the same lines. */
  lemma {:induction false} LinesAreUnique(a: seq<string>, b: seq<string>)
    requires Lined(a) && Lined(b) && Concat(a) == Concat(b)
    ensures a == b
  {
    if a == [] || b == [] {
      assert a == [] && b == [];
    } else {
      var s, t := Concat(a), Concat(b);
      assert s == a[0] + Concat(a[1..]) && t == b[0] + Concat(b[1..]);
      assert |a| > 1 ==> Concat(a[1..]) != "" by { if |a| > 1 { assert a[1] == a[1..][0]; } }
      assert |b| > 1 ==> Concat(b[1..]) != "" by { if |b| > 1 { assert b[1] == b[1..][0]; } }
      if |a[0]| < |b[0]| {
        FirstLineEnds(a, b);
      } else if |b[0]| < |a[0]| {
        FirstLineEnds(b, a);
      }
      assert a[0] == s[..|a[0]|] == b[0];
      assert Concat(a[1..]) == s[|a[0]|..] == Concat(b[1..]);
      LinesAreUnique(a[1..], b[1..]);
    }
  }

  lemma FirstLineEnds(a: seq<string>, b: seq<string>)
    requires a != [] && b != [] && Lined(a) && Lined(b) && Concat(a) == Concat(b)
    ensures |a[0]| >= |b[0]|
  {
    if |a| == 1 {
      assert a[1..] == [];
    }
    var s := Concat(a);
    assert s == a[0] + Concat(a[1..]) && s == b[0] + Concat(b[1..]);
    assert forall j | 0 <= j < |a[0]| :: s[j] == a[0][j];
    assert forall j | 0 <= j < |b[0]| :: s[j] == b[0][j];
  }

  lemma {:induction false} LinesAreLined(line: string, text: string)
    requires forall k | 0 <= k < |line| :: line[k] != '\n'
    ensures Lined(LinesOf(line, text))
    decreases |text|
  {
    if text != "" {
      if text[0] == '\n' {
        LinesAreLined("", text[1..]);
      } else {
        LinesAreLined(line + [text[0]], text[1..]);
      }
    }
  }

  lemma {:induction false} LinesAddUp(line: string, text: string)
    ensures Concat(LinesOf(line, text)) == line + text
    decreases |text|
  {
    if text == "" {
      ConcatOfOne(line);
    } else if text[0] == '\n' {
      LinesAddUp("", text[1..]);
      assert LinesOf(line, text)[1..] == LinesOf("", text[1..]);
    } else {
      LinesAddUp(line + [text[0]], text[1..]);
    }
  }

  /** Records that add up and end at line feeds are the lines of the text. */
  lemma LinedAreLines(records: seq<string>, text: string)
    requires Lined(records) && Concat(records) == Normalize(text)
    ensures records == Lines(text)
  {
    LinesAreLined("", Normalize(text));
    LinesAddUp("", Normalize(text));
    assert "" + Normalize(text) == Normalize(text);
    LinesAreUnique(records, Lines(text));
  }

  lemma {:induction false} ScannedAreTerminated(line: string, v: string, final: bool)
    requires Plain(line)
    ensures forall k | 0 <= k < |Scan(line, v, final).records| :: Terminated(Scan(line, v, final).records[k])
    decreases |v|
  {
    if v != "" {
      if v[0] == '\n' {
        ScannedAreTerminated("", v[1..], final);
      } else if v[0] == '\r' {
        if |v| != 1 || final {
          ScannedAreTerminated("", AfterReturn(v), final);
        }
      } else {
        ScannedAreTerminated(line + [v[0]], v[1..], final);
      }
    }
  }

  // Scanning in pieces

  lemma {:induction false} ScanAfterPlain(line: string, more: string, v: string, final: bool)
    requires Plain(more)
    ensures Scan(line, more + v, final) == Scan(line + more, v, final)
    decreases |more|
  {
    if more == "" {
      assert more + v == v && line + more == line;
    } else {
      assert (more + v)[1..] == more[1..] + v;
      assert line + [more[0]] + more[1..] == line + more;
      ScanAfterPlain(line + [more[0]], more[1..], v, final);
    }
  }

  /** Scanning a text is scanning a piece of it, then what that left together with the rest. */
  lemma {:induction false} ScanInPieces(line: string, a: string, b: string, final: bool)
    requires Plain(line)
    ensures var s := Scan(line, a, false);
            var t := Scan("", s.pending + b, final);
            Scan(line, a + b, final) == Split(s.records + t.records, t.pending)
    decreases |a|
  {
    var s := Scan(line, a, false);
    var t := Scan("", s.pending + b, final);
    assert [] + t.records == t.records;
    if a == "" {
      assert a + b == b && "" + line == line;
      ScanAfterPlain("", line, b, final);
    } else if a[0] == '\n' {
      assert (a + b)[1..] == a[1..] + b;
      ScanInPieces("", a[1..], b, final);
      RecordFirst(line + "\n", Scan("", a[1..], false), t);
    } else if a[0] == '\r' {
      if |a| == 1 {
        Regroup(line, "\r", b);
        assert a + b == "\r" + b && "" + line == line;
        ScanAfterPlain("", line, "\r" + b, final);
      } else {
        assert AfterReturn(a + b) == AfterReturn(a) + b;
        ScanInPieces("", AfterReturn(a), b, final);
        RecordFirst(line + "\n", Scan("", AfterReturn(a), false), t);
      }
    } else {
      assert (a + b)[1..] == a[1..] + b;
      ScanInPieces(line + [a[0]], a[1..], b, final);
    }
  }

  lemma RecordFirst(record: string, s: Split, t: Split)
    ensures Split(s.records + t.records, t.pending).After(record)
         == Split(s.After(record).records + t.records, t.pending)
  {
  }

  function Waiting(text: string): string { Scan("", text, false).pending }

  /** At no moment more than the bound has to wait for its line to end. */
  ghost predicate PrefixesFit(text: string) {
    forall k | 0 <= k <= |text| :: Size(Waiting(text[..k])) <= MAX_RECORD_BYTES
  }

  lemma PrefixesFitEarlier(text: string, k: nat)
    requires PrefixesFit(text) && k <= |text|
    ensures PrefixesFit(text[..k])
  {
    forall j | 0 <= j <= k ensures Size(Waiting(text[..k][..j])) <= MAX_RECORD_BYTES {
      assert text[..k][..j] == text[..j];
    }
  }

  /** When what waits fits, a step only scans. */
  lemma StepIsScan(done: string, chunk: string)
    requires Size(Waiting(done + chunk)) <= MAX_RECORD_BYTES
    ensures var before := Scan("", done, false);
            var step := Complete(before.pending + chunk, false);
            Scan("", done + chunk, false) == Split(before.records + step.records, step.pending)
  {
    hide Scan, Size;
    ScanInPieces("", done, chunk, false);
    var scanned := Scan("", Waiting(done) + chunk, false);
    assert scanned.records + [] == scanned.records;
  }

  lemma {:induction false} FeedIsScan(done: string, chunks: seq<string>)
    requires PrefixesFit(done + Concat(chunks))
    ensures var before := Scan("", done, false);
            var fed := Feed(before.pending, chunks);
            Scan("", done + Concat(chunks), false) == Split(before.records + fed.records, fed.pending)
    decreases |chunks|
  {
    hide Scan, Size, Complete;
    var before := Scan("", done, false);
    var whole := done + Concat(chunks);
    if chunks == [] {
      assert whole == done && before.records + [] == before.records;
    } else {
      var next := done + chunks[0];
      Regroup(done, chunks[0], Concat(chunks[1..]));
      assert whole[..|next|] == next;
      assert Size(Waiting(whole[..|next|])) <= MAX_RECORD_BYTES;
      StepIsScan(done, chunks[0]);
      FeedIsScan(next, chunks[1..]);
      var step := Complete(before.pending + chunks[0], false);
      var fed := Feed(step.pending, chunks[1..]);
      assert before.records + (step.records + fed.records) == before.records + step.records + fed.records;
    }
  }

  lemma {:induction false} FinalWaitsLess(line: string, text: string)
    ensures Size(Scan(line, text, true).pending) <= Size(Scan(line, text, false).pending)
    decreases |text|
  {
    if text != "" {
      if text[0] == '\n' {
        FinalWaitsLess("", text[1..]);
      } else if text[0] == '\r' {
        if |text| > 1 {
          FinalWaitsLess("", AfterReturn(text));
        }
      } else {
        FinalWaitsLess(line + [text[0]], text[1..]);
      }
    }
  }

  /** If nothing ever waits too long, any cutting gives the same records as no cutting. */
  lemma FittingDrain(chunks: seq<string>, last: string)
    requires PrefixesFit(Concat(chunks) + last)
    ensures var whole := Scan("", Concat(chunks) + last, true);
            Drain(chunks, last) == if whole.pending == "" then whole.records else whole.records + [whole.pending]
  {
    hide Scan, Plain, Size, Concat;
    var text, sofar := Concat(chunks) + last, Concat(chunks);
    assert text[..|sofar|] == sofar && text[..|text|] == text;
    PrefixesFitEarlier(text, |sofar|);
    FeedAll(chunks);
    var fed := Feed("", chunks);
    ScanInPieces("", sofar, last, true);
    FinalWaitsLess("", text);
    var tail := Scan("", fed.pending + last, true);
    assert Chop(tail.pending) == Split([], tail.pending);
    assert tail.records + [] == tail.records;
    assert fed.records + (tail.records + [tail.pending]) == fed.records + tail.records + [tail.pending];
  }

  lemma FeedAll(chunks: seq<string>)
    requires PrefixesFit(Concat(chunks))
    ensures Scan("", Concat(chunks), false) == Feed("", chunks)
  {
    var fed := Feed("", chunks);
    assert "" + Concat(chunks) == Concat(chunks);
    assert Scan("", "", false) == Split([], "");
    FeedIsScan("", chunks);
    assert [] + fed.records == fed.records;
  }

  lemma FittingGivesLines(chunks: seq<string>, last: string)
    requires PrefixesFit(Concat(chunks) + last)
    ensures Drain(chunks, last) == Lines(Concat(chunks) + last)
  {
    hide Drain, Scan, Normalize, Concat;
    var text := Concat(chunks) + last;
    FittingDrain(chunks, last);
    ScanIsOpen("", text, true);
    ScannedAreTerminated("", text, true);
    RecordsAddUp(chunks, last);
    LinedAreLines(Drain(chunks, last), text);
  }

  // Exactly when the records are the lines

  /**
   No stretch without a line end takes more than 64 KiB, nor exactly that much when a carriage
   return follows, which has to wait too.
   */
  ghost predicate LinesFit(text: string) {
    forall i, j | 0 <= i <= j <= |text| && Plain(text[i..j]) :: StretchFits(text, i, j)
  }

  predicate StretchFits(text: string, i: nat, j: nat)
    requires i <= j <= |text|
  {
    && Size(text[i..j]) <= MAX_RECORD_BYTES
    && (j < |text| && text[j] == '\r' ==> Size(text[i..j]) < MAX_RECORD_BYTES)
  }

  predicate Suffix(part: string, text: string) {
    |part| <= |text| && text[|text| - |part|..] == part
  }

  lemma {:induction false} WaitingIsSuffix(line: string, v: string)
    ensures Suffix(Scan(line, v, false).pending, line + v)
    decreases |v|
  {
    if v == "" {
      assert line + v == line;
    } else if v[0] == '\n' {
      WaitingIsSuffix("", v[1..]);
      SuffixOfLonger("", v[1..], line + v, Scan("", v[1..], false).pending);
    } else if v[0] == '\r' {
      if |v| == 1 {
        assert line + "\r" == line + v;
      } else {
        WaitingIsSuffix("", AfterReturn(v));
        SuffixOfLonger("", AfterReturn(v), line + v, Scan("", AfterReturn(v), false).pending);
      }
    } else {
      WaitingIsSuffix(line + [v[0]], v[1..]);
      assert line + [v[0]] + v[1..] == line + v;
    }
  }

  lemma SuffixOfLonger(none: string, v: string, text: string, part: string)
    requires none == "" && Suffix(part, none + v) && Suffix(v, text)
    ensures Suffix(part, text)
  {
    assert none + v == v;
  }

  lemma PlainWaits(line: string, stretch: string)
    requires Plain(stretch)
    ensures Scan(line, stretch, false) == Split([], line + stretch)
  {
    ScanAfterPlain(line, stretch, "", false);
    assert stretch + "" == stretch;
  }

  lemma ReturnEndsLine(line: string, stretch: string)
    requires Plain(line) && Plain(stretch) && stretch != ""
    ensures Scan("", line + ("\r" + stretch), false).pending == stretch
  {
    assert "" + line == line && "" + stretch == stretch;
    ScanAfterPlain("", line, "\r" + stretch, false);
    assert AfterReturn("\r" + stretch) == stretch;
    PlainWaits("", stretch);
  }

  /** A stretch without a line end waits as a whole. */
  lemma StretchWaits(before: string, stretch: string)
    requires Plain(stretch)
    ensures Suffix(stretch, Waiting(before + stretch))
    ensures Plain(Waiting(before + stretch)) || stretch == ""
  {
    hide Scan;
    ScanInPieces("", before, stretch, false);
    ScanIsOpen("", before, false);
    var q := Waiting(before);
    if Plain(q) {
      PlainWaits("", q + stretch);
      assert "" + (q + stretch) == q + stretch;
    } else if stretch != "" {
      var line := q[..|q| - 1];
      assert q + stretch == line + ("\r" + stretch);
      ReturnEndsLine(line, stretch);
    }
  }

  /** A carriage return waits with the stretch before it. */
  lemma ReturnWaits(before: string)
    requires Plain(Waiting(before))
    ensures Waiting(before + "\r") == Waiting(before) + "\r"
  {
    var q := Waiting(before);
    ScanInPieces("", before, "\r", false);
    ScanAfterPlain("", q, "\r", false);
    assert "" + q == q;
  }

  lemma SuffixIsSmaller(part: string, text: string)
    requires Suffix(part, text)
    ensures Size(part) <= Size(text)
  {
    var k := |text| - |part|;
    assert text == text[..k] + part;
    SizeOfConcat(text[..k], part);
  }

  lemma SizeOfReturn(line: string)
    ensures Size(line + "\r") == Size(line) + 1
  {
    SizeOfConcat(line, "\r");
    assert Size("\r") == Width('\r') + Size("");
  }

  lemma FitIsFit(text: string)
    ensures LinesFit(text) <==> PrefixesFit(text)
  {
    if LinesFit(text) {
      forall k | 0 <= k <= |text| ensures Size(Waiting(text[..k])) <= MAX_RECORD_BYTES {
        WaitingFits(text, k);
      }
    }
    if PrefixesFit(text) {
      forall i, j | 0 <= i <= j <= |text| && Plain(text[i..j]) ensures StretchFits(text, i, j) {
        StretchIsShort(text, i, j);
      }
    }
  }

  lemma FitsAt(text: string, i: nat, j: nat)
    requires LinesFit(text) && i <= j <= |text| && Plain(text[i..j])
    ensures StretchFits(text, i, j)
  {
    hide StretchFits;
  }

  /** What waits is a stretch of the text, perhaps with a carriage return. */
  lemma WaitingIsStretch(text: string, k: nat) returns (i: nat)
    requires k <= |text|
    ensures i <= k && Waiting(text[..k]) == text[i..k] && Open(text[i..k])
  {
    hide Scan;
    var q := Waiting(text[..k]);
    WaitingIsSuffix("", text[..k]);
    ScanIsOpen("", text[..k], false);
    assert "" + text[..k] == text[..k];
    i := k - |q|;
    assert text[..k][i..] == text[i..k];
  }

  lemma WaitingFits(text: string, k: nat)
    requires LinesFit(text) && k <= |text|
    ensures Size(Waiting(text[..k])) <= MAX_RECORD_BYTES
  {
    hide Waiting, Size, LinesFit, Plain;
    var i := WaitingIsStretch(text, k);
    var q := text[i..k];
    if Plain(q) {
      FitsAt(text, i, k);
    } else {
      var line := q[..|q| - 1];
      assert line == text[i..k - 1] && q == line + "\r";
      FitsAt(text, i, k - 1);
      SizeOfReturn(line);
    }
  }

  lemma StretchIsShort(text: string, i: nat, j: nat)
    requires PrefixesFit(text) && i <= j <= |text| && Plain(text[i..j])
    ensures StretchFits(text, i, j)
  {
    hide Scan, Size;
    var stretch := text[i..j];
    assert text[..i] + stretch == text[..j];
    StretchWaits(text[..i], stretch);
    SuffixIsSmaller(stretch, Waiting(text[..j]));
    assert Size(Waiting(text[..j])) <= MAX_RECORD_BYTES;
    if j < |text| && text[j] == '\r' {
      if stretch == "" {
        NothingIsSmall();
      } else {
        assert text[..j] + "\r" == text[..j + 1];
        ReturnWaits(text[..j]);
        SizeOfReturn(Waiting(text[..j]));
        assert Size(Waiting(text[..j + 1])) <= MAX_RECORD_BYTES;
      }
    }
  }

  lemma NothingIsSmall()
    ensures Size("") == 0
  {
  }

  /** The text cut into single characters. */
  function Singles(text: string): seq<string> {
    if text == "" then [] else [text[..1]] + Singles(text[1..])
  }

  lemma {:induction false} SinglesOfConcat(a: string, b: string)
    ensures Singles(a + b) == Singles(a) + Singles(b)
    ensures Concat(Singles(a)) == a
  {
    if a == "" {
      assert a + b == b;
    } else {
      assert (a + b)[1..] == a[1..] + b && (a + b)[..1] == a[..1];
      SinglesOfConcat(a[1..], b);
      assert a == a[..1] + a[1..];
    }
  }

  lemma {:induction false} FeedInPieces(pending: string, chunks: seq<string>, more: seq<string>)
    ensures var s := Feed(pending, chunks);
            var t := Feed(s.pending, more);
            Feed(pending, chunks + more) == Split(s.records + t.records, t.pending)
    decreases |chunks|
  {
    hide Complete;
    var t := Feed(Feed(pending, chunks).pending, more);
    if chunks == [] {
      assert chunks + more == more && [] + t.records == t.records;
    } else {
      assert (chunks + more)[1..] == chunks[1..] + more;
      FeedInPieces(Complete(pending + chunks[0], false).pending, chunks[1..], more);
    }
  }

  /** The first moment too much waits. */
  lemma {:induction false} FirstOverflow(text: string, n: nat) returns (k: nat)
    requires n <= |text| && Size(Waiting(text[..n])) > MAX_RECORD_BYTES
    ensures 0 < k <= |text| && Size(Waiting(text[..k])) > MAX_RECORD_BYTES && PrefixesFit(text[..k - 1])
    decreases n
  {
    assert n > 0 by { NothingIsSmall(); }
    k := n;
    if !PrefixesFit(text[..n - 1]) {
      var j :| 0 <= j <= n - 1 && Size(Waiting(text[..n - 1][..j])) > MAX_RECORD_BYTES;
      assert text[..n - 1][..j] == text[..j];
      k := FirstOverflow(text, j);
    }
  }

  lemma NormalizeKeepsSome(text: string)
    requires text != ""
    ensures Normalize(text) != ""
  {
  }

  /** What comes out once `pending` waits and the characters of `b` follow. */
  lemma WhatFollows(pending: string, b: string)
    requires pending != ""
    ensures var fed := Feed(pending, Singles(b));
            Concat(fed.records + Complete(fed.pending + "", true).records) != ""
  {
    hide Complete, Feed, Normalize, Singles, Concat;
    var fed := Feed(pending, Singles(b));
    var final := Complete(fed.pending + "", true);
    SinglesOfConcat(b, "");
    FeedKeepsText(pending, Singles(b), "");
    CompleteKeepsText(fed.pending + "", true, "");
    CompleteIsBounded(fed.pending + "", true);
    ConcatOfConcat(fed.records, final.records);
    EmptyIsNormal();
    assert fed.pending + "" == fed.pending && final.pending + "" == "";
    assert Concat(final.records) + "" == Concat(final.records);
    assert pending + b + "" != "";
    NormalizeKeepsSome(pending + b + "");
  }

  /** A step in which too much waits cuts a line in two. */
  lemma OverflowCuts(waiting: string, c: string)
    requires Open(waiting) && Size(Waiting(waiting + c)) > MAX_RECORD_BYTES
    ensures var s := Complete(waiting + c, false);
            s.records != [] && Unfinished(s.records[|s.records| - 1]) && s.pending != ""
  {
    hide Scan, Size;
    var pending := Waiting(waiting + c);
    ScanIsOpen("", waiting + c, false);
    ChopIsBounded(pending);
    assert pending != "" by { NothingIsSmall(); }
    assert Chop(pending).records != [];
  }

  /** If too much waits at some moment, the text cut into single characters gives other records. */
  lemma OverflowIsSeen(text: string)
    requires !PrefixesFit(text)
    ensures Drain(Singles(text), "") != Lines(text)
  {
    hide Complete, Scan, Feed, Concat, Singles, Size, Normalize, Terminated, Open;
    var n :| 0 <= n <= |text| && Size(Waiting(text[..n])) > MAX_RECORD_BYTES;
    var k := FirstOverflow(text, n);
    var a, c, b := text[..k - 1], text[k - 1..k], text[k..];
    CutAt(text, k);
    var pieces := Singles(a) + [c];
    FeedAll(Singles(a));
    var fed := Feed("", Singles(a));
    ScanIsOpen("", a, false);
    ScanInPieces("", a, c, false);
    var one := Complete(fed.pending + c, false);
    OverflowCuts(fed.pending, c);
    FeedInPieces("", Singles(a), [c] + Singles(b));
    FeedOne(fed.pending, c, Singles(b));
    var rest := Feed(one.pending, Singles(b));
    var final := Complete(rest.pending + "", true);
    WhatFollows(one.pending, b);
    var tail := rest.records + final.records;
    var head := fed.records + one.records;
    assert tail != [] by { EmptyIsNormal(); }
    assert Drain(Singles(text), "") == head + tail;
    var m := |head| - 1;
    assert (head + tail)[m] == one.records[|one.records| - 1];
    UnfinishedIsNot((head + tail)[m]);
    assert !Lined(head + tail);
    LinesAreLined("", Normalize(text));
  }

  lemma UnfinishedIsNot(record: string)
    requires Unfinished(record)
    ensures !Terminated(record)
  {
  }

  lemma CutAt(text: string, k: nat)
    requires 0 < k <= |text|
    ensures var a, c, b := text[..k - 1], text[k - 1..k], text[k..];
            && a + c == text[..k]
            && Concat(Singles(a)) == a
            && Singles(text) == Singles(a) + ([c] + Singles(b))
  {
    var a, c, b := text[..k - 1], text[k - 1..k], text[k..];
    assert text == text[..k] + b;
    assert text[..k] == a + c;
    Regroup(a, c, b);
    SinglesOfConcat(a, c + b);
    SinglesOfConcat(c, b);
    assert c[1..] == "" && c[..1] == c;
    assert Singles(c) == [c] + Singles(c[1..]);
  }

  lemma FeedOne(pending: string, c: string, more: seq<string>)
    ensures var one := Complete(pending + c, false);
            var rest := Feed(one.pending, more);
            Feed(pending, [c] + more) == Split(one.records + rest.records, rest.pending)
  {
    hide Complete;
    assert ([c] + more)[1..] == more;
  }

  /**
   The records are the lines whatever the cutting if and only if every line fits; and single
   characters are the worst cutting, they tell.
   */
  lemma RecordsAreLinesIffLinesFit(text: string)
    ensures LinesFit(text) <==> Drain(Singles(text), "") == Lines(text)
    ensures LinesFit(text) <==>
            forall chunks, last | Concat(chunks) + last == text :: Drain(chunks, last) == Lines(text)
  {
    hide Drain, Lines, LinesFit, PrefixesFit;
    FitIsFit(text);
    SinglesOfConcat(text, "");
    assert Concat(Singles(text)) + "" == text;
    if PrefixesFit(text) {
      forall chunks, last | Concat(chunks) + last == text ensures Drain(chunks, last) == Lines(text) {
        FittingGivesLines(chunks, last);
      }
    } else {
      OverflowIsSeen(text);
    }
  }

  /** Lines shorter than 64 KiB are delivered as they are. */
  lemma ShortLinesAreRecords(chunks: seq<string>, last: string)
    requires var text := Concat(chunks) + last;
             forall i, j | 0 <= i <= j <= |text| && Plain(text[i..j]) :: Size(text[i..j]) < MAX_RECORD_BYTES
    ensures Drain(chunks, last) == Lines(Concat(chunks) + last)
  {
    hide Drain, Lines, Size, Concat, Plain;
    var text := Concat(chunks) + last;
    forall i, j | 0 <= i <= j <= |text| && Plain(text[i..j]) ensures StretchFits(text, i, j) {
      assert Size(text[i..j]) < MAX_RECORD_BYTES;
    }
    RecordsAreLinesIffLinesFit(text);
  }

  // The loops

  lemma {:induction false} PrefixOfWhole(text: string, k: nat)
    requires k >= Size(text)
    ensures PrefixWithin(text, k) == text
  {
    if text != "" {
      PrefixOfWhole(text[1..], k - Width(text[0]));
    }
  }

  method SplitUtf8Prefix(value: string, maximum: nat) returns (prefix: string, rest: string)
    ensures prefix == PrefixWithin(value, maximum) && prefix + rest == value
  {
    var encoded := Encode(value);
    SizeIsEncodedLength(value);
    if maximum <= |encoded| {
      DecodeUpToByte(value, maximum);
      prefix := DecodeIgnore(encoded[..maximum]);
    } else {
      DecodeUndoesEncode(value);
      PrefixOfWhole(value, maximum);
      prefix := DecodeIgnore(encoded);
    }
    rest := value[|prefix|..];
  }

  method CompleteRecords(value: string, final: bool) returns (records: seq<string>, pending: string)
    ensures Split(records, pending) == Complete(value, final)
  {
    var scanned, start := ScanRecords(value, final);
    records, pending := scanned, value[start..];
    ghost var whole := Chop(pending);
    while |Encode(pending)| > MAX_RECORD_BYTES
      invariant scanned + whole.records == records + Chop(pending).records
      invariant whole.pending == Chop(pending).pending
      decreases |pending|
    {
      SizeIsEncodedLength(pending);
      PrefixIsSome(pending, MAX_RECORD_BYTES);
      var record, rest := SplitUtf8Prefix(pending, MAX_RECORD_BYTES);
      assert rest == pending[|record|..];
      assert records + ([record] + Chop(rest).records) == records + [record] + Chop(rest).records;
      records, pending := records + [record], rest;
    }
    SizeIsEncodedLength(pending);
    assert records == scanned + whole.records;
    if final && pending != "" {
      records, pending := records + [pending], "";
    }
  }

  lemma ScanStep(line: string, left: string, final: bool)
    requires left != ""
    ensures left[0] == '\n' ==> Scan(line, left, final) == Scan("", left[1..], final).After(line + "\n")
    ensures left[0] == '\r' && (|left| > 1 || final) ==>
              Scan(line, left, final) == Scan("", AfterReturn(left), final).After(line + "\n")
    ensures left == "\r" && !final ==> Scan(line, left, final) == Split([], line + left)
    ensures left[0] != '\n' && left[0] != '\r' ==>
              Scan(line, left, final) == Scan(line + left[..1], left[1..], final)
  {
    assert left[..1] == [left[0]];
  }

  lemma MovesRecord(records: seq<string>, record: string, s: Split)
    ensures records + s.After(record).records == (records + [record]) + s.records
  {
  }

  /** The index loop: complete records, and where the rest starts. */
  method ScanRecords(value: string, final: bool) returns (records: seq<string>, start: nat)
    ensures start <= |value| && Split(records, value[start..]) == Scan("", value, final)
  {
    hide Scan;
    records, start := [], 0;
    var index := 0;
    assert value[0..] == value && value[0..0] == "";
    while index < |value|
      invariant start <= index <= |value|
      invariant var s := Scan(value[start..index], value[index..], final);
                Scan("", value, final) == Split(records + s.records, s.pending)
    {
      var character := value[index];
      ghost var line, left := value[start..index], value[index..];
      assert left[1..] == value[index + 1..];
      ScanStep(line, left, final);
      if character == '\n' {
        assert value[start..index + 1] == line + "\n";
        MovesRecord(records, line + "\n", Scan("", left[1..], final));
        records := records + [value[start..index + 1]];
        start := index + 1;
      } else if character == '\r' {
        if index + 1 == |value| && !final {
          assert value[start..] == line + left;
          assert left == "\r" && records + [] == records;
          return;
        }
        var end := if index + 1 < |value| && value[index + 1] == '\n' then index + 2 else index + 1;
        assert AfterReturn(left) == value[end..];
        MovesRecord(records, line + "\n", Scan("", value[end..], final));
        records := records + [value[start..index] + "\n"];
        start := end;
        index := end - 1;
      } else {
        assert value[start..index + 1] == line + left[..1];
      }
      index := index + 1;
      assert start == index ==> value[start..index] == "";
    }
    PlainEnd(value[start..], final);
    assert value[index..] == "" && value[start..index] == value[start..] && records + [] == records;
  }

  lemma PlainEnd(line: string, final: bool)
    ensures Scan(line, "", final) == Split([], line)
  {
  }
}
