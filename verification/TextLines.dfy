/** Python's `str.splitlines`: where a text breaks into lines, and how lines make a text again. */
module TextLines {
  import opened Wrappers

  predicate LineBreak(c: char) {
    '\n' <= c <= '\r' || '\U{1C}' <= c <= '\U{1E}' || c == '\U{85}' || c == '\U{2028}' || c == '\U{2029}'
  }

  predicate Whitespace(c: char) {
    || LineBreak(c) || c == '\t' || c == '\U{1F}' || c == ' ' || c == '\U{A0}' || c == '\U{1680}'
    || '\U{2000}' <= c <= '\U{200A}' || c == '\U{202F}' || c == '\U{205F}' || c == '\U{3000}'
  }

  predicate OneLine(text: string) {
    forall k | 0 <= k < |text| :: !LineBreak(text[k])
  }

  /** The lines of `text`, `line` being the part of the first one already read. */
  function LinesFrom(line: string, text: string): seq<string>
    decreases |text|
  {
    if text == "" then if line == "" then [] else [line]
    else if text[0] == '\r' && |text| > 1 && text[1] == '\n' then [line] + LinesFrom("", text[2..])
    else if LineBreak(text[0]) then [line] + LinesFrom("", text[1..])
    else LinesFrom(line + [text[0]], text[1..])
  }

  function SplitLines(text: string): seq<string> { LinesFrom("", text) }

  /** Each line followed by a line feed. */
  function Unlines(lines: seq<string>): string {
    if lines == [] then "" else lines[0] + "\n" + Unlines(lines[1..])
  }

  /** Line feeds are the only line breaks, and one ends the text. */
  predicate LineFeedsOnly(text: string) {
    && (forall k | 0 <= k < |text| && LineBreak(text[k]) :: text[k] == '\n')
    && (text != "" ==> text[|text| - 1] == '\n')
  }

  lemma {:induction false} LinesFromOneLine(line: string, more: string, text: string)
    requires OneLine(more)
    ensures LinesFrom(line, more + text) == LinesFrom(line + more, text)
    decreases |more|
  {
    if more == "" {
      assert more + text == text && line + more == line;
    } else {
      assert (more + text)[1..] == more[1..] + text;
      assert line + [more[0]] + more[1..] == line + more;
      LinesFromOneLine(line + [more[0]], more[1..], text);
    }
  }

  lemma {:induction false} SplitUndoesUnlines(lines: seq<string>)
    requires forall k | 0 <= k < |lines| :: OneLine(lines[k])
    ensures SplitLines(Unlines(lines)) == lines
  {
    if lines != [] {
      var rest := Unlines(lines[1..]);
      assert lines[0] + "\n" + rest == lines[0] + ("\n" + rest);
      LinesFromOneLine("", lines[0], "\n" + rest);
      assert "" + lines[0] == lines[0];
      assert ("\n" + rest)[1..] == rest;
      SplitUndoesUnlines(lines[1..]);
      assert [lines[0]] + lines[1..] == lines;
    }
  }

  lemma FirstLine(line: string, lines: seq<string>)
    ensures Unlines([line] + lines) == line + "\n" + Unlines(lines)
  {
    assert ([line] + lines)[1..] == lines;
  }

  lemma {:induction false} UnlinesUndoesLinesFrom(line: string, text: string)
    requires LineFeedsOnly(text) && (text == "" ==> line == "")
    ensures Unlines(LinesFrom(line, text)) == line + text
    decreases |text|
  {
    hide Unlines;
    if text == "" {
      NoLines();
    } else if text[0] == '\n' {
      UnlinesUndoesLinesFrom("", text[1..]);
      FirstLine(line, LinesFrom("", text[1..]));
      assert "" + text[1..] == text[1..] && "\n" + text[1..] == text;
      Regroup(line, "\n", text[1..]);
    } else {
      assert !LineBreak(text[0]);
      UnlinesUndoesLinesFrom(line + [text[0]], text[1..]);
      Regroup(line, [text[0]], text[1..]);
      assert [text[0]] + text[1..] == text;
    }
  }

  lemma NoLines()
    ensures Unlines([]) == "" && "" + "" == ""
  {
  }

  lemma {:induction false} UnlinesHasLineFeedsOnly(lines: seq<string>)
    requires forall k | 0 <= k < |lines| :: OneLine(lines[k])
    ensures LineFeedsOnly(Unlines(lines))
  {
    if lines != [] {
      UnlinesHasLineFeedsOnly(lines[1..]);
      var head, rest := lines[0] + "\n", Unlines(lines[1..]);
      forall k | 0 <= k < |head + rest| && LineBreak((head + rest)[k]) ensures (head + rest)[k] == '\n' {
        if k >= |head| {
          assert (head + rest)[k] == rest[k - |head|];
        }
      }
    }
  }

  lemma {:induction false} LinesAreOneLine(line: string, text: string)
    requires OneLine(line)
    ensures forall k | 0 <= k < |LinesFrom(line, text)| :: OneLine(LinesFrom(line, text)[k])
    decreases |text|
  {
    if text != "" {
      if text[0] == '\r' && |text| > 1 && text[1] == '\n' {
        LinesAreOneLine("", text[2..]);
      } else if LineBreak(text[0]) {
        LinesAreOneLine("", text[1..]);
      } else {
        LinesAreOneLine(line + [text[0]], text[1..]);
      }
    }
  }

  /** Joining the lines of a text gives it back exactly when it has line feeds only. */
  lemma UnlinesUndoesSplit(text: string)
    ensures Unlines(SplitLines(text)) == text <==> LineFeedsOnly(text)
  {
    LinesAreOneLine("", text);
    UnlinesHasLineFeedsOnly(SplitLines(text));
    if LineFeedsOnly(text) {
      UnlinesUndoesLinesFrom("", text);
      assert "" + text == text;
    }
  }
}
