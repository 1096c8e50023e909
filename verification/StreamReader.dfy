/**
 The loop of one reader thread, undisturbed by the other: it reads chunks to the end of the
 pipe, cuts them into records and hands those to the observer, which may raise at any call.
 */
module StreamReader {
  import opened Wrappers
  import opened Utf8
  import opened TailBuffer
  import opened Records

  /** Answers a record, knowing the calls before; None is an exception. */
  type Observer = (seq<string>, string) -> Option<string>

  /** The calls made, the texts that went to the buffer, and whether a call raised. */
  datatype Observed = Observed(calls: seq<string>, shown: seq<string>, failed: bool)

  function Observe(observer: Observer, o: Observed, record: string): Observed {
    if o.failed then o
    else
      var reply := observer(o.calls, record);
      if reply.None? then Observed(o.calls + [record], o.shown, true)
      else Observed(o.calls + [record], o.shown + [reply.value], false)
  }

  function ObserveAll(observer: Observer, o: Observed, records: seq<string>): Observed
    decreases |records|
  {
    if records == [] then o else ObserveAll(observer, Observe(observer, o, records[0]), records[1..])
  }

  lemma {:induction false} ObserveInTwo(observer: Observer, o: Observed, a: seq<string>, b: seq<string>)
    ensures ObserveAll(observer, o, a + b) == ObserveAll(observer, ObserveAll(observer, o, a), b)
    decreases |a|
  {
    if a == [] {
      assert a + b == b;
    } else {
      assert (a + b)[1..] == a[1..] + b;
      ObserveInTwo(observer, Observe(observer, o, a[0]), a[1..], b);
    }
  }

  /**
   The observer sees the records in order up to the first call that raises, every answer but the
   missing one is shown, and without an exception it sees all of them.
   */
  lemma {:induction false} ObserverSeesAPrefix(observer: Observer, o: Observed, records: seq<string>)
    returns (n: nat)
    ensures n <= |records|
    ensures var o' := ObserveAll(observer, o, records);
            && o'.calls == o.calls + records[..n]
            && |o.shown| <= |o'.shown| && o'.shown[..|o.shown|] == o.shown
            && (!o'.failed ==> n == |records| && !o.failed && |o'.shown| == |o.shown| + n)
            && (o.failed ==> n == 0 && o' == o)
            && (o'.failed && !o.failed ==>
                  && n > 0 && |o'.shown| == |o.shown| + n - 1
                  && observer(o.calls + records[..n - 1], records[n - 1]).None?)
    decreases |records|
  {
    if records == [] {
      n := 0;
    } else {
      var next := Observe(observer, o, records[0]);
      var m := ObserverSeesAPrefix(observer, next, records[1..]);
      if o.failed {
        n := 0;
      } else {
        n := m + 1;
        assert records[..n] == [records[0]] + records[1..][..m];
        assert o.calls + [records[0]] + records[1..][..m] == o.calls + records[..n];
        if m > 0 {
          assert records[..n - 1] == [records[0]] + records[1..][..m - 1];
          assert o.calls + [records[0]] + records[1..][..m - 1] == o.calls + records[..n - 1];
        } else {
          assert o.calls + records[..0] == o.calls;
        }
        assert next.shown[..|o.shown|] == o.shown;
        assert ObserveAll(observer, o, records).shown[..|o.shown|]
          == ObserveAll(observer, o, records).shown[..|next.shown|][..|o.shown|];
      }
    }
  }

  lemma NothingRead(chunks: seq<string>, observer: Observer, o: Observed)
    ensures Feed("", chunks[..0]) == Split([], "") && ObserveAll(observer, o, []) == o
    ensures o.(shown := o.shown + chunks[..0]) == o
  {
    assert o.shown + chunks[..0] == o.shown;
  }

  lemma DrainIs(chunks: seq<string>, last: string)
    ensures var fed := Feed("", chunks);
            Drain(chunks, last) == fed.records + Complete(fed.pending + last, true).records
  {
  }

  /** One more chunk. */
  lemma FeedMore(chunks: seq<string>, k: nat)
    requires k < |chunks|
    ensures var fed := Feed("", chunks[..k]);
            var step := Complete(fed.pending + chunks[k], false);
            Feed("", chunks[..k + 1]) == Split(fed.records + step.records, step.pending)
    ensures chunks[..k + 1] == chunks[..k] + [chunks[k]]
  {
    hide Complete;
    var fed := Feed("", chunks[..k]);
    var step := Complete(fed.pending + chunks[k], false);
    assert chunks[..k + 1] == chunks[..k] + [chunks[k]];
    FeedInPieces("", chunks[..k], [chunks[k]]);
    FeedOne(fed.pending, chunks[k], []);
    assert [chunks[k]] + [] == [chunks[k]] && step.records + [] == step.records;
  }

  /** What the threads share. */
  class ObservationState {
    var failed: bool
    ghost var calls: seq<string>

    constructor ()
      ensures !failed && calls == []
    {
      failed, calls := false, [];
    }
  }

  class Reader {
    const observer: Observer
    const buffer: BoundedTextBuffer
    const state: ObservationState
    /** The calls the observer itself has seen. */
    var seen: seq<string>

    constructor (observer: Observer, buffer: BoundedTextBuffer)
      ensures this.observer == observer && this.buffer == buffer && fresh(state)
      ensures !state.failed && state.calls == seen == []
    {
      this.observer, this.buffer, seen := observer, buffer, [];
      state := new ObservationState();
    }

    ghost predicate Valid()
      reads this, state, buffer
    {
      buffer.Valid() && state.calls == seen
    }

    ghost function Sofar(): Observed
      reads this, state, buffer
    {
      Observed(state.calls, buffer.appended, state.failed)
    }

    method ObserveRecord(record: string)
      requires Valid()
      modifies this, state, buffer
      ensures Valid() && Sofar() == Observe(observer, old(Sofar()), record)
    {
      if state.failed {
        return;
      }
      var rendered := observer(seen, record);
      seen := seen + [record];
      state.calls := state.calls + [record];
      if rendered.None? {
        state.failed := true;
        return;
      }
      buffer.Append(rendered.value);
    }

    method ObserveRecords(records: seq<string>)
      requires Valid()
      modifies this, state, buffer
      ensures Valid() && Sofar() == ObserveAll(observer, old(Sofar()), records)
    {
      ghost var start := Sofar();
      for k := 0 to |records|
        invariant Valid() && Sofar() == ObserveAll(observer, start, records[..k])
      {
        assert records[..k + 1] == records[..k] + [records[k]];
        ObserveInTwo(observer, start, records[..k], [records[k]]);
        ObserveRecord(records[k]);
      }
      assert records[..|records|] == records;
    }

    /**
     The thread: an observed stream reaches the observer as its records, any other one goes
     to the buffer chunk by chunk.
     */
    method DrainStream(chunks: seq<string>, last: string, observed: bool)
      requires Valid()
      modifies this, state, buffer
      ensures Valid()
      ensures observed ==> Sofar() == ObserveAll(observer, old(Sofar()), Drain(chunks, last))
      ensures !observed ==> Sofar() == old(Sofar()).(shown := old(Sofar()).shown + chunks + [last])
    {
      hide Complete, Feed, ObserveAll, Observe, Overflowed, Tail, Size, Concat, Drain;
      var pending := "";
      ghost var start := Sofar();
      ghost var done: seq<string> := [];
      NothingRead(chunks, observer, start);
      for k := 0 to |chunks|
        invariant Valid()
        invariant observed ==> Sofar() == ObserveAll(observer, start, done)
        invariant observed ==> Split(done, pending) == Feed("", chunks[..k])
        invariant !observed ==> Sofar() == start.(shown := start.shown + chunks[..k])
      {
        FeedMore(chunks, k);
        if !observed {
          buffer.Append(chunks[k]);
          continue;
        }
        var value := pending + chunks[k];
        var records;
        records, pending := CompleteRecords(value, false);
        ObserveInTwo(observer, start, done, records);
        done := done + records;
        ObserveRecords(records);
      }
      assert chunks[..|chunks|] == chunks;
      if !observed {
        buffer.Append(last);
        return;
      }
      CompleteIsBounded(pending + last, true);
      var records;
      records, pending := CompleteRecords(pending + last, true);
      ObserveInTwo(observer, start, done, records);
      DrainIs(chunks, last);
      ObserveRecords(records);
      // Nothing waits any more, so the runner's last test never finds anything.
      if pending != "" {
        assert false;
      }
    }
  }
}
