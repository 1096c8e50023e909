/**
 What is new in a kernel log: an ordered multiset difference with a fast path for logs that only
 grew, and the findings made of the new lines.
 */
module KernelLog {
  import opened Wrappers
  import opened TextLines

  datatype Discontinuity = EmptyAfter | NoCommonLine

  /** The lines of `after` that are left when each line of `before` has taken one equal line. */
  function Remaining(before: multiset<string>, after: seq<string>): seq<string> {
    if after == [] then []
    else if before[after[0]] > 0 then Remaining(before - multiset{after[0]}, after[1..])
    else [after[0]] + Remaining(before, after[1..])
  }

  function NewLines(before: seq<string>, after: seq<string>): Result<seq<string>, Discontinuity> {
    if before != [] && after == [] then Err(EmptyAfter)
    else if before <= after then Ok(after[|before|..])
    else if before != [] && multiset(before) * multiset(after) == multiset{} then Err(NoCommonLine)
    else Ok(Remaining(multiset(before), after))
  }

  /** Lines that were there before go first, whatever follows them. */
  lemma {:induction false} PrefixIsTaken(more: multiset<string>, taken: seq<string>, rest: seq<string>)
    ensures Remaining(multiset(taken) + more, taken + rest) == Remaining(more, rest)
  {
    if taken == [] {
      assert taken + rest == rest;
      assert multiset(taken) + more == more;
    } else {
      assert taken == [taken[0]] + taken[1..];
      assert (taken + rest)[1..] == taken[1..] + rest;
      assert multiset(taken) + more - multiset{taken[0]} == multiset(taken[1..]) + more;
      PrefixIsTaken(more, taken[1..], rest);
    }
  }

  lemma {:induction false} NothingIsTaken(before: multiset<string>, after: seq<string>)
    requires forall k | 0 <= k < |after| :: before[after[k]] == 0
    ensures Remaining(before, after) == after
  {
    if after != [] {
      NothingIsTaken(before, after[1..]);
    }
  }

  /** The fast path gives what counting would have given. */
  lemma FastPathAgrees(before: seq<string>, after: seq<string>)
    requires before <= after
    ensures Remaining(multiset(before), after) == after[|before|..]
  {
    var rest := after[|before|..];
    assert after == before + rest;
    PrefixIsTaken(multiset{}, before, rest);
    assert multiset(before) + multiset{} == multiset(before);
    NothingIsTaken(multiset{}, rest);
  }

  /** The two logs share no line: the one case in which there is no answer. */
  predicate Disjoint(before: seq<string>, after: seq<string>) {
    forall line | line in before :: line !in after
  }

  lemma PrefixIsCommon(before: seq<string>, after: seq<string>)
    requires before != [] && before <= after
    ensures !Disjoint(before, after)
  {
    assert before[0] in before && after[0] == before[0];
  }

  lemma NoAnswerIffDisjoint(before: seq<string>, after: seq<string>)
    ensures NewLines(before, after).Err? <==> before != [] && Disjoint(before, after)
    ensures NewLines(before, after).Ok? ==> NewLines(before, after).value == Remaining(multiset(before), after)
  {
    var common := multiset(before) * multiset(after);
    if before != [] && Disjoint(before, after) {
      assert before[0] !in after;
      forall line ensures common[line] == 0 {
        assert line in multiset(before) <==> line in before;
        assert line in multiset(after) <==> line in after;
      }
      assert common == multiset{};
      if before <= after {
        PrefixIsCommon(before, after);
      }
    } else if before != [] {
      var line :| line in before && line in after;
      assert line in multiset(before) && line in multiset(after);
      assert line in common;
    }
    if before <= after {
      FastPathAgrees(before, after);
    }
  }

  /** The positions of `after` that are new: equal lines before them used up those of `before`. */
  function NewAt(before: seq<string>, after: seq<string>, n: nat): seq<string>
    requires n <= |after|
  {
    if n == 0 then []
    else
      var line := after[n - 1];
      NewAt(before, after, n - 1)
      + if multiset(after[..n - 1])[line] >= multiset(before)[line] then [line] else []
  }

  lemma OneLess(before: multiset<string>, seen: multiset<string>, line: string)
    ensures var left := before - seen;
            before - (seen + multiset{line}) == if left[line] > 0 then left - multiset{line} else left
    ensures (before - seen)[line] > 0 <==> seen[line] < before[line]
  {
  }

  lemma RemainingStep(left: multiset<string>, line: string, rest: seq<string>)
    ensures Remaining(left, [line] + rest)
         == if left[line] > 0 then Remaining(left - multiset{line}, rest) else [line] + Remaining(left, rest)
  {
    assert ([line] + rest)[1..] == rest;
  }

  lemma OneTaken(left: multiset<string>, line: string)
    requires left[line] > 0
    ensures left[line := left[line] - 1] == left - multiset{line}
  {
  }

  lemma OverlapIsCommon(before: seq<string>, after: seq<string>)
    ensures |multiset(before) * multiset(after)| == 0 <==> multiset(before) * multiset(after) == multiset{}
  {
  }

  lemma NothingRemains(left: multiset<string>, lines: seq<string>)
    ensures lines == [] ==> Remaining(left, lines) == []
  {
  }

  lemma SeenMore(after: seq<string>, n: nat)
    requires 0 < n <= |after|
    ensures multiset(after[..n]) == multiset(after[..n - 1]) + multiset{after[n - 1]}
    ensures after[n - 1..] == [after[n - 1]] + after[n..]
  {
    assert after[..n] == after[..n - 1] + [after[n - 1]];
  }

  lemma {:induction false} RemainingFrom(before: seq<string>, after: seq<string>, n: nat)
    requires n <= |after|
    ensures Remaining(multiset(before), after)
         == NewAt(before, after, n) + Remaining(multiset(before) - multiset(after[..n]), after[n..])
  {
    hide Remaining;
    if n == 0 {
      assert after[..0] == [] && after[0..] == after;
      assert multiset(before) - multiset(after[..0]) == multiset(before);
      assert [] + Remaining(multiset(before), after) == Remaining(multiset(before), after);
    } else {
      var line, seen, all := after[n - 1], multiset(after[..n - 1]), multiset(before);
      RemainingFrom(before, after, n - 1);
      SeenMore(after, n);
      RemainingStep(all - seen, line, after[n..]);
      OneLess(all, seen, line);
      var head, tail := NewAt(before, after, n - 1), Remaining(all - (seen + multiset{line}), after[n..]);
      if seen[line] >= all[line] {
        Regroup(head, [line], tail);
      } else {
        assert head + [] == head;
      }
    }
  }

  predicate Subsequence(part: seq<string>, whole: seq<string>)
    decreases |whole|
  {
    part == [] ||
    (whole != [] && if part[0] == whole[0] then Subsequence(part[1..], whole[1..]) else Subsequence(part, whole[1..]))
  }

  lemma {:induction false} RemainingIsDifference(before: multiset<string>, after: seq<string>)
    ensures multiset(Remaining(before, after)) == multiset(after) - before
  {
    if after != [] {
      var line, rest := after[0], multiset(after[1..]);
      assert after == [line] + after[1..];
      assert multiset(after) == rest + multiset{line};
      if before[line] > 0 {
        RemainingIsDifference(before - multiset{line}, after[1..]);
        assert rest + multiset{line} - before == rest - (before - multiset{line});
      } else {
        RemainingIsDifference(before, after[1..]);
        assert rest + multiset{line} - before == rest - before + multiset{line};
      }
    }
  }

  lemma {:induction false} RemainingIsSubsequence(before: multiset<string>, after: seq<string>)
    ensures Subsequence(Remaining(before, after), after)
  {
    if after != [] {
      var found := Remaining(before, after);
      if before[after[0]] > 0 {
        RemainingIsSubsequence(before - multiset{after[0]}, after[1..]);
        if found != [] && found[0] == after[0] {
          SubsequenceSkips(found, after[1..]);
        }
      } else {
        RemainingIsSubsequence(before, after[1..]);
        assert found[1..] == Remaining(before, after[1..]);
      }
    }
  }

  lemma {:induction false} SubsequenceSkips(part: seq<string>, whole: seq<string>)
    requires part != [] && Subsequence(part, whole)
    ensures Subsequence(part[1..], whole)
    decreases |whole|
  {
    if part[0] == whole[0] {
      if part[1..] != [] && part[1] == whole[0] {
        SubsequenceSkips(part[1..], whole[1..]);
      }
    } else {
      SubsequenceSkips(part, whole[1..]);
      if part[1..] != [] && part[1..][0] == whole[0] {
        SubsequenceSkips(part[1..], whole[1..]);
      }
    }
  }

  /**
   The answer is a subsequence of the later log, it holds each line as often as the later log has
   it more than the earlier one, and of equal lines the last ones.
   */
  lemma NewLinesAreTheDifference(before: seq<string>, after: seq<string>)
    requires NewLines(before, after).Ok?
    ensures var found := NewLines(before, after).value;
            && Subsequence(found, after)
            && multiset(found) == multiset(after) - multiset(before)
            && found == NewAt(before, after, |after|)
            && (forall line :: line in found <==> multiset(after)[line] > multiset(before)[line])
  {
    NoAnswerIffDisjoint(before, after);
    RemainingIsDifference(multiset(before), after);
    RemainingIsSubsequence(multiset(before), after);
    RemainingFrom(before, after, |after|);
    var found := NewLines(before, after).value;
    assert after[|after|..] == [];
    forall line ensures line in found <==> multiset(after)[line] > multiset(before)[line] {
      assert line in found <==> line in multiset(found);
    }
  }

  /** A log that lost its beginning `d` and gained `n` gives exactly `n`. */
  lemma RotatedLog(d: seq<string>, k: seq<string>, n: seq<string>)
    requires k != [] && forall i | 0 <= i < |n| :: n[i] !in d
    ensures NewLines(d + k, k + n) == Ok(n)
  {
    NoAnswerIffDisjoint(d + k, k + n);
    assert (d + k)[|d|] == k[0] && k[0] in k + n;
    PrefixIsTaken(multiset(d), k, n);
    assert multiset(k) + multiset(d) == multiset(d + k);
    forall i | 0 <= i < |n| ensures multiset(d)[n[i]] == 0 {
      assert n[i] !in multiset(d);
    }
    NothingIsTaken(multiset(d), n);
  }

  method NewKernelLines(before: string, after: string) returns (found: Result<seq<string>, Discontinuity>)
    ensures found == NewLines(SplitLines(before), SplitLines(after))
  {
    var beforeLines, afterLines := SplitLines(before), SplitLines(after);
    if beforeLines != [] && afterLines == [] {
      return Err(EmptyAfter);
    }
    if beforeLines <= afterLines {
      return Ok(afterLines[|beforeLines|..]);
    }
    var remaining := multiset(beforeLines);
    OverlapIsCommon(beforeLines, afterLines);
    var overlap := |multiset(beforeLines) * multiset(afterLines)|;
    if beforeLines != [] && overlap == 0 {
      return Err(NoCommonLine);
    }
    var newLines := CountNewLines(remaining, afterLines);
    found := Ok(newLines);
  }

  /** Lets each line take one that is left, and keeps those that find none. */
  method CountNewLines(before: multiset<string>, after: seq<string>) returns (newLines: seq<string>)
    ensures newLines == Remaining(before, after)
  {
    hide Remaining;
    var remaining := before;
    newLines := [];
    assert after[0..] == after && [] + Remaining(before, after) == Remaining(before, after);
    for k := 0 to |after|
      invariant Remaining(before, after) == newLines + Remaining(remaining, after[k..])
    {
      var line := after[k];
      assert after[k..] == [line] + after[k + 1..];
      RemainingStep(remaining, line, after[k + 1..]);
      if remaining[line] > 0 {
        OneTaken(remaining, line);
        remaining := remaining[line := remaining[line] - 1];
      } else {
        Regroup(newLines, [line], Remaining(remaining, after[k + 1..]));
        newLines := newLines + [line];
      }
    }
    NothingRemains(remaining, after[|after|..]);
    assert newLines + [] == newLines;
  }

  // Findings

  const CODES: seq<string> :=
    ["GPU.INIT_FATAL", "GPU.MES_TIMEOUT", "GPU.RESET", "GPU.PAGE_FAULT", "GPU.RING_TIMEOUT", "GPU.FIRMWARE"]

  datatype Finding = Finding(code: string, evidence: string)

  /** Whether one of the six failure patterns, by number, is found in a line. */
  type Matcher = (nat, string) -> bool

  /** The first pattern from `from` on that matches. */
  function FirstMatch(matches: Matcher, line: string, from: nat): (found: Option<nat>)
    ensures found.Some? ==>
              from <= found.value < |CODES| && matches(found.value, line)
              && forall p: nat | from <= p < found.value :: !matches(p, line)
    ensures found.None? ==> forall p: nat | from <= p < |CODES| :: !matches(p, line)
    decreases |CODES| - from
  {
    if from >= |CODES| then None
    else if matches(from, line) then Some(from)
    else FirstMatch(matches, line, from + 1)
  }

  function Classify(matches: Matcher, lines: seq<string>): seq<Finding> {
    if lines == [] then []
    else
      var found := FirstMatch(matches, lines[0], 0);
      (if found.None? then [] else [Finding(CODES[found.value], lines[0])]) + Classify(matches, lines[1..])
  }

  predicate Failure(matches: Matcher, line: string) {
    exists p: nat | p < |CODES| :: matches(p, line)
  }

  lemma {:induction false} ClassifyFinds(matches: Matcher, lines: seq<string>, f: Finding)
    ensures f in Classify(matches, lines) <==>
            f.evidence in lines && FirstMatch(matches, f.evidence, 0).Some?
            && f.code == CODES[FirstMatch(matches, f.evidence, 0).value]
  {
    if lines != [] {
      assert lines == [lines[0]] + lines[1..];
      ClassifyFinds(matches, lines[1..], f);
    }
  }

  /**
   A line makes a finding exactly if it matches a failure pattern and the later log has it more
   often than the earlier one; the finding carries the code of the first pattern that matches.
   */
  lemma FailuresAreFound(matches: Matcher, before: seq<string>, after: seq<string>, line: string)
    requires NewLines(before, after).Ok?
    ensures var findings := Classify(matches, NewLines(before, after).value);
            (exists f :: f in findings && f.evidence == line) <==>
            Failure(matches, line) && multiset(after)[line] > multiset(before)[line]
    ensures Failure(matches, line) && multiset(after)[line] > multiset(before)[line] ==>
            var p := FirstMatch(matches, line, 0);
            p.Some? && Finding(CODES[p.value], line) in Classify(matches, NewLines(before, after).value)
  {
    hide NewLines, Classify;
    var found := NewLines(before, after).value;
    var findings := Classify(matches, found);
    NewLinesAreTheDifference(before, after);
    var p := FirstMatch(matches, line, 0);
    if p.Some? {
      ClassifyFinds(matches, found, Finding(CODES[p.value], line));
    }
    if exists f :: f in findings && f.evidence == line {
      var f :| f in findings && f.evidence == line;
      ClassifyFinds(matches, found, f);
    }
  }

  method ClassifyNewLines(matches: Matcher, lines: seq<string>) returns (findings: seq<Finding>)
    ensures findings == Classify(matches, lines)
  {
    findings := [];
    for k := 0 to |lines|
      invariant Classify(matches, lines) == findings + Classify(matches, lines[k..])
    {
      var p := 0;
      assert lines[k..][1..] == lines[k + 1..];
      while p < |CODES| && !matches(p, lines[k])
        invariant 0 <= p <= |CODES|
        invariant FirstMatch(matches, lines[k], 0) == FirstMatch(matches, lines[k], p)
      {
        p := p + 1;
      }
      if p < |CODES| {
        var finding := Finding(CODES[p], lines[k]);
        assert findings + ([finding] + Classify(matches, lines[k + 1..]))
          == findings + [finding] + Classify(matches, lines[k + 1..]);
        findings := findings + [finding];
      }
    }
    assert findings + [] == findings;
  }
}
