/**
 Two threads read a command's pipes and share one observer, a lock and an error. The state
 machine takes one step of one thread at a time, in any interleaving.
 */
module Observation {
  import opened Wrappers
  import opened Utf8
  import opened Records

  datatype Stream = Stdout | Stderr

  /** What a pipe will deliver before its end, and whether its output goes to the observer. */
  datatype Job = Job(chunks: seq<string>, last: string, observed: bool)

  datatype Jobs = Jobs(out: Job, err: Job)
  {
    function Of(stream: Stream): Job { if stream == Stdout then out else err }
  }

  /** Where a thread stands. Only one that is `Holding` or `Calling` has the lock. */
  datatype Point = Free | Holding | Calling | Showing(text: string) | Closed

  /**
   A thread: how many chunks it read, whether it saw the end, the records it still has to hand
   over, those it is done with, and what it appended to its buffer.
   */
  datatype Reader = Reader(
    read: nat, ended: bool, pending: string, queue: seq<string>, handled: seq<string>,
    shown: seq<string>, at: Point)

  /** A call of the observer begins, or ends with a text or with an exception. */
  datatype Event =
    | Began(stream: Stream, record: string)
    | Ended(stream: Stream, record: string, reply: Option<string>)

  datatype System = System(out: Reader, err: Reader, lock: Option<Stream>, failed: bool, log: seq<Event>)
  {
    function Of(stream: Stream): Reader { if stream == Stdout then out else err }
  }

  datatype Kind =
    | Read | Finish | Acquire | Skip | Call | Return(text: string) | Raise | Show | Close

  datatype Action = Action(stream: Stream, kind: Kind)

  const START := Reader(0, false, "", [], [], [], Free)

  const IDLE := System(START, START, None, false, [])

  predicate Enabled(jobs: Jobs, sys: System, action: Action) {
    var job, r := jobs.Of(action.stream), sys.Of(action.stream);
    match action.kind
    case Read => r.at == Free && r.queue == [] && !r.ended && r.read < |job.chunks|
    case Finish => r.at == Free && r.queue == [] && !r.ended && r.read == |job.chunks|
    case Acquire => r.at == Free && r.queue != [] && sys.lock.None?
    case Skip => r.at == Holding && r.queue != [] && sys.failed
    case Call => r.at == Holding && r.queue != [] && !sys.failed
    case Return(_) => r.at == Calling && r.queue != []
    case Raise => r.at == Calling && r.queue != []
    case Show => r.at.Showing? && r.queue != []
    case Close => r.at == Free && r.queue == [] && r.ended
  }

  function Dequeued(r: Reader): Reader
    requires r.queue != []
  {
    r.(queue := r.queue[1..], handled := r.handled + [r.queue[0]], at := Free)
  }

  /** The records of one more chunk, or of the end of the pipe. */
  function ReadMore(job: Job, r: Reader): Reader
    requires !r.ended && r.read <= |job.chunks|
  {
    var final := r.read == |job.chunks|;
    var decoded := if final then job.last else job.chunks[r.read];
    var read := if final then r.read else r.read + 1;
    if !job.observed then r.(read := read, ended := final, shown := r.shown + [decoded])
    else
      var split := Complete(r.pending + decoded, final);
      var left := if final && split.pending != "" then [split.pending] else [];
      r.(read := read, ended := final, queue := split.records + left, pending := split.pending)
  }

  /** What a step does to its own thread. */
  function NextReader(job: Job, r: Reader, kind: Kind): Reader
    requires kind.Read? || kind.Finish? ==> !r.ended && r.read <= |job.chunks|
    requires kind.Skip? || kind.Raise? || kind.Show? ==> r.queue != []
    requires kind.Show? ==> r.at.Showing?
  {
    match kind
    case Read => ReadMore(job, r)
    case Finish => ReadMore(job, r)
    case Acquire => r.(at := Holding)
    case Skip => Dequeued(r)
    case Call => r.(at := Calling)
    case Return(text) => r.(at := Showing(text))
    case Raise => Dequeued(r)
    case Show => Dequeued(r).(shown := r.shown + [r.at.text])
    case Close => r.(at := Closed)
  }

  /** The events a step adds. */
  function Added(stream: Stream, r: Reader, kind: Kind): seq<Event> {
    if r.queue == [] then []
    else
      match kind
      case Call => [Began(stream, r.queue[0])]
      case Return(text) => [Ended(stream, r.queue[0], Some(text))]
      case Raise => [Ended(stream, r.queue[0], None)]
      case _ => []
  }

  function Step(jobs: Jobs, sys: System, action: Action): System
    requires Enabled(jobs, sys, action)
  {
    var stream, kind := action.stream, action.kind;
    var r := sys.Of(stream);
    var r' := NextReader(jobs.Of(stream), r, kind);
    System(
      if stream == Stdout then r' else sys.out,
      if stream == Stderr then r' else sys.err,
      if kind.Acquire? then Some(stream)
      else if kind.Skip? || kind.Return? || kind.Raise? then None
      else sys.lock,
      sys.failed || kind.Raise?,
      sys.log + Added(stream, r, kind))
  }

  /** The system after a schedule, if every action of it was possible. */
  function Reached(jobs: Jobs, schedule: seq<Action>): Option<System>
    decreases |schedule|
  {
    if schedule == [] then Some(IDLE)
    else
      var before := Reached(jobs, schedule[..|schedule| - 1]);
      var action := schedule[|schedule| - 1];
      if before.None? || !Enabled(jobs, before.value, action) then None
      else Some(Step(jobs, before.value, action))
  }

  /** The records handed to the observer for a stream, in order. */
  function Delivered(log: seq<Event>, stream: Stream): seq<string>
    decreases |log|
  {
    if log == [] then []
    else
      var e := log[|log| - 1];
      Delivered(log[..|log| - 1], stream) + if e.Began? && e.stream == stream then [e.record] else []
  }

  /** The texts the observer returned for a stream, in order. */
  function Replies(log: seq<Event>, stream: Stream): seq<string>
    decreases |log|
  {
    if log == [] then []
    else
      var e := log[|log| - 1];
      Replies(log[..|log| - 1], stream)
      + if e.Ended? && e.stream == stream && e.reply.Some? then [e.reply.value] else []
  }

  lemma LogMore(log: seq<Event>, e: Event, stream: Stream)
    ensures Delivered(log + [e], stream)
         == Delivered(log, stream) + if e.Began? && e.stream == stream then [e.record] else []
    ensures Replies(log + [e], stream)
         == Replies(log, stream)
            + if e.Ended? && e.stream == stream && e.reply.Some? then [e.reply.value] else []
  {
    assert (log + [e])[..|log + [e]| - 1] == log;
  }

  // What every step keeps

  /** The records a thread has not read yet. */
  function Future(job: Job, r: Reader): seq<string> {
    if !job.observed || r.ended || r.read > |job.chunks| then []
    else
      var fed := Feed(r.pending, job.chunks[r.read..]);
      fed.records + Complete(fed.pending + job.last, true).records
  }

  /** A thread by itself: nothing of its stream is lost or reordered. */
  predicate ReaderKeeps(job: Job, r: Reader) {
    && r.read <= |job.chunks|
    && (r.ended ==> r.read == |job.chunks|)
    && (r.at.Holding? || r.at.Calling? || r.at.Showing? ==> r.queue != [])
    && (r.at.Closed? ==> r.ended && r.queue == [])
    && (job.observed ==> r.handled + r.queue + Future(job, r) == Drain(job.chunks, job.last))
    && (!job.observed ==>
          && r.queue == [] && r.handled == []
          && r.shown == job.chunks[..r.read] + if r.ended then [job.last] else [])
  }

  predicate DeliveredKeeps(r: Reader, delivered: seq<string>, failed: bool) {
    && delivered <= r.handled + r.queue
    && (!failed ==>
          delivered == r.handled + if (r.at.Calling? || r.at.Showing?) && r.queue != [] then [r.queue[0]] else [])
  }

  predicate RepliesKeep(r: Reader, replies: seq<string>) {
    replies == r.shown + if r.at.Showing? then [r.at.text] else []
  }

  /** A thread and the log. */
  predicate LogKeeps(job: Job, sys: System, stream: Stream) {
    && DeliveredKeeps(sys.Of(stream), Delivered(sys.log, stream), sys.failed)
    && (job.observed ==> RepliesKeep(sys.Of(stream), Replies(sys.log, stream)))
  }

  /** Calls come one after the other: each ends before the next begins. */
  predicate OneAtATime(log: seq<Event>) {
    forall k | 0 <= k < |log| :: InTurn(log, k)
  }

  predicate InTurn(log: seq<Event>, k: nat)
    requires k < |log|
  {
    if k % 2 == 0 then log[k].Began?
    else log[k].Ended? && log[k].stream == log[k - 1].stream && log[k].record == log[k - 1].record
  }

  predicate Raised(e: Event) { e.Ended? && e.reply.None? }

  /** The lock belongs to the thread that holds it. */
  predicate LockKeeps(sys: System) {
    forall stream :: sys.lock == Some(stream) <==> sys.Of(stream).at.Holding? || sys.Of(stream).at.Calling?
  }

  predicate InCall(sys: System) { sys.out.at.Calling? || sys.err.at.Calling? }

  /** The log ends in a call that has begun exactly when a thread is in it, and at most one failed. */
  predicate CallsKeep(sys: System) {
    && OneAtATime(sys.log)
    && (|sys.log| % 2 == 1 <==> InCall(sys))
    && (forall stream | sys.Of(stream).at.Calling? :: CurrentCall(sys, stream))
    && (sys.failed ==> sys.log != [] && Raised(sys.log[|sys.log| - 1]))
    && (forall k | 0 <= k < |sys.log| && Raised(sys.log[k]) :: k == |sys.log| - 1 && sys.failed)
  }

  predicate CurrentCall(sys: System, stream: Stream) {
    var r := sys.Of(stream);
    r.queue != [] && sys.log != [] && sys.log[|sys.log| - 1] == Began(stream, r.queue[0])
  }

  predicate Keeps(jobs: Jobs, sys: System) {
    && (forall stream :: ReaderKeeps(jobs.Of(stream), sys.Of(stream)))
    && (forall stream :: LogKeeps(jobs.Of(stream), sys, stream))
    && LockKeeps(sys)
    && CallsKeep(sys)
  }

  lemma ReadMoreKeeps(job: Job, r: Reader)
    requires ReaderKeeps(job, r) && r.at == Free && r.queue == [] && !r.ended
    ensures ReaderKeeps(job, ReadMore(job, r))
  {
    hide Complete;
    var r' := ReadMore(job, r);
    if job.observed {
      assert r.handled + r.queue == r.handled;
      if r.read < |job.chunks| {
        var step := Complete(r.pending + job.chunks[r.read], false);
        assert job.chunks[r.read..][1..] == job.chunks[r.read + 1..];
        assert Future(job, r) == step.records + Future(job, r');
        assert r'.queue == step.records by { assert step.records + [] == step.records; }
        assert r.handled + (step.records + Future(job, r')) == r.handled + step.records + Future(job, r');
      } else {
        assert job.chunks[r.read..] == [];
        CompleteIsBounded(r.pending + job.last, true);
        assert r'.queue == Future(job, r);
        assert r.handled + r'.queue + [] == r.handled + r'.queue;
      }
    } else if r.read < |job.chunks| {
      assert job.chunks[..r.read + 1] == job.chunks[..r.read] + [job.chunks[r.read]];
    }
  }

  lemma DequeuedKeeps(job: Job, r: Reader)
    requires ReaderKeeps(job, r) && r.queue != []
    ensures ReaderKeeps(job, Dequeued(r))
    ensures Dequeued(r).handled + Dequeued(r).queue == r.handled + r.queue
  {
    hide Complete, Feed, Drain;
    assert r.handled + [r.queue[0]] + r.queue[1..] == r.handled + r.queue;
    assert Future(job, Dequeued(r)) == Future(job, r);
  }

  predicate Possible(job: Job, r: Reader, kind: Kind) {
    Enabled(Jobs(job, job), System(r, r, None, kind.Skip?, []), Action(Stdout, kind))
  }

  lemma EnabledIsPossible(jobs: Jobs, sys: System, action: Action)
    requires Enabled(jobs, sys, action)
    ensures Possible(jobs.Of(action.stream), sys.Of(action.stream), action.kind)
  {
  }

  lemma NextReaderKeeps(job: Job, r: Reader, kind: Kind)
    requires ReaderKeeps(job, r) && Possible(job, r, kind)
    ensures ReaderKeeps(job, NextReader(job, r, kind))
  {
    hide Complete, Feed, Drain, ReadMore;
    match kind
    case Read => ReadMoreKeeps(job, r);
    case Finish => ReadMoreKeeps(job, r);
    case Skip => DequeuedKeeps(job, r);
    case Raise => DequeuedKeeps(job, r);
    case Show =>
      DequeuedKeeps(job, r);
      assert Future(job, NextReader(job, r, kind)) == Future(job, Dequeued(r));
    case _ =>
      assert Future(job, NextReader(job, r, kind)) == Future(job, r);
  }

  /** Where a step leaves its thread. */
  lemma NextReaderAt(job: Job, r: Reader, kind: Kind)
    requires Possible(job, r, kind)
    ensures var at := NextReader(job, r, kind).at;
            && (at.Holding? <==> kind.Acquire?)
            && (at.Calling? <==> kind.Call?)
            && (at.Calling? ==> NextReader(job, r, kind).queue == r.queue)
            && (r.at.Holding? <==> kind.Skip? || kind.Call?)
            && (r.at.Calling? <==> kind.Return? || kind.Raise?)
  {
    hide Complete;
  }

  function Other(stream: Stream): Stream { if stream == Stdout then Stderr else Stdout }

  lemma OtherStands(jobs: Jobs, sys: System, action: Action)
    requires Enabled(jobs, sys, action)
    ensures Step(jobs, sys, action).Of(Other(action.stream)) == sys.Of(Other(action.stream))
    ensures Step(jobs, sys, action).Of(action.stream)
         == NextReader(jobs.Of(action.stream), sys.Of(action.stream), action.kind)
  {
    hide NextReader;
  }

  lemma StepKeepsReaders(jobs: Jobs, sys: System, action: Action)
    requires Keeps(jobs, sys) && Enabled(jobs, sys, action)
    ensures forall stream :: ReaderKeeps(jobs.Of(stream), Step(jobs, sys, action).Of(stream))
  {
    hide ReaderKeeps, LogKeeps, LockKeeps, CallsKeep, Step, Possible, NextReader;
    EnabledIsPossible(jobs, sys, action);
    OtherStands(jobs, sys, action);
    NextReaderKeeps(jobs.Of(action.stream), sys.Of(action.stream), action.kind);
    forall stream ensures ReaderKeeps(jobs.Of(stream), Step(jobs, sys, action).Of(stream)) {
      assert stream == action.stream || stream == Other(action.stream);
    }
  }

  lemma StepKeepsLog(jobs: Jobs, sys: System, action: Action, stream: Stream)
    requires Keeps(jobs, sys) && Enabled(jobs, sys, action)
    ensures LogKeeps(jobs.Of(stream), Step(jobs, sys, action), stream)
  {
    hide NextReader, ReaderKeeps, LockKeeps, CallsKeep, Delivered, Replies, Possible, Added;
    EnabledIsPossible(jobs, sys, action);
    OtherStands(jobs, sys, action);
    var job, r := jobs.Of(action.stream), sys.Of(action.stream);
    var added := Added(action.stream, r, action.kind);
    AddedToLog(sys.log, job, action.stream, r, action.kind);
    assert ReaderKeeps(job, r);
    assert LogKeeps(job, sys, action.stream) && LogKeeps(jobs.Of(stream), sys, stream);
    if action.stream == stream {
      OwnLog(job, r, action.kind, Delivered(sys.log, stream), Replies(sys.log, stream), sys.failed);
    } else {
      assert stream == Other(action.stream);
    }
  }

  /** What a thread's own step adds to the records delivered and the texts returned. */
  function NewlyDelivered(r: Reader, kind: Kind): seq<string> {
    if kind.Call? && r.queue != [] then [r.queue[0]] else []
  }

  function NewReplies(r: Reader, kind: Kind): seq<string> {
    if kind.Return? then [kind.text] else []
  }

  lemma AddedToLog(log: seq<Event>, job: Job, stream: Stream, r: Reader, kind: Kind)
    requires Possible(job, r, kind)
    ensures var log' := log + Added(stream, r, kind);
            && Delivered(log', stream) == Delivered(log, stream) + NewlyDelivered(r, kind)
            && Replies(log', stream) == Replies(log, stream) + NewReplies(r, kind)
            && Delivered(log', Other(stream)) == Delivered(log, Other(stream))
            && Replies(log', Other(stream)) == Replies(log, Other(stream))
  {
    hide Delivered, Replies;
    var added := Added(stream, r, kind);
    if added == [] {
      assert log + added == log;
    } else {
      LogMore(log, added[0], stream);
      LogMore(log, added[0], Other(stream));
    }
  }

  lemma OwnLog(job: Job, r: Reader, kind: Kind, delivered: seq<string>, replies: seq<string>, failed: bool)
    requires ReaderKeeps(job, r) && Possible(job, r, kind)
    requires DeliveredKeeps(r, delivered, failed) && (job.observed ==> RepliesKeep(r, replies))
    requires (kind.Skip? ==> failed) && (kind.Call? ==> !failed)
    ensures DeliveredKeeps(NextReader(job, r, kind), delivered + NewlyDelivered(r, kind), failed || kind.Raise?)
    ensures job.observed ==> RepliesKeep(NextReader(job, r, kind), replies + NewReplies(r, kind))
  {
    hide Complete, Feed, Drain, ReadMore, Future;
    if r.queue != [] {
      HeadMoves(r);
    }
    if kind.Read? || kind.Finish? {
      ReadMoreShape(job, r);
    }
  }

  lemma HeadMoves(r: Reader)
    requires r.queue != []
    ensures r.handled + [r.queue[0]] + r.queue[1..] == r.handled + r.queue
    ensures r.handled + [r.queue[0]] <= r.handled + r.queue
  {
  }

  lemma ReadMoreShape(job: Job, r: Reader)
    requires r.at == Free && r.queue == [] && !r.ended && r.read <= |job.chunks|
    ensures var r' := ReadMore(job, r);
            r'.handled == r.handled && r'.at == Free && (job.observed ==> r'.shown == r.shown)
  {
  }

  lemma StepKeepsLock(jobs: Jobs, sys: System, action: Action)
    requires Keeps(jobs, sys) && Enabled(jobs, sys, action)
    ensures LockKeeps(Step(jobs, sys, action))
  {
    hide NextReader, Added, ReaderKeeps, LogKeeps, CallsKeep, Possible;
    EnabledIsPossible(jobs, sys, action);
    OtherStands(jobs, sys, action);
    NextReaderAt(jobs.Of(action.stream), sys.Of(action.stream), action.kind);
    var sys' := Step(jobs, sys, action);
    forall stream ensures sys'.lock == Some(stream) <==> sys'.Of(stream).at.Holding? || sys'.Of(stream).at.Calling? {
      assert stream == action.stream || stream == Other(action.stream);
    }
  }

  lemma StepKeepsCalls(jobs: Jobs, sys: System, action: Action)
    requires Keeps(jobs, sys) && Enabled(jobs, sys, action)
    ensures CallsKeep(Step(jobs, sys, action))
  {
    hide NextReader, ReaderKeeps, LogKeeps, Possible, OneAtATime;
    EnabledIsPossible(jobs, sys, action);
    OtherStands(jobs, sys, action);
    var stream := action.stream;
    var r, sys' := sys.Of(stream), Step(jobs, sys, action);
    NextReaderAt(jobs.Of(stream), r, action.kind);
    assert sys.lock == Some(stream) <==> r.at.Holding? || r.at.Calling?;
    assert sys.lock == Some(Other(stream)) <==> sys.Of(Other(stream)).at.Holding? || sys.Of(Other(stream)).at.Calling?;
    assert r.at.Calling? ==> CurrentCall(sys, stream);
    var added := Added(stream, r, action.kind);
    if added == [] {
      assert sys.log + added == sys.log;
    } else {
      CallsMore(sys.log, added[0]);
    }
    forall other | sys'.Of(other).at.Calling? ensures CurrentCall(sys', other) {
      assert other == stream || other == Other(stream);
    }
  }

  lemma CallsMore(log: seq<Event>, e: Event)
    requires OneAtATime(log)
    requires if |log| % 2 == 0 then e.Began?
             else e.Ended? && e.stream == log[|log| - 1].stream && e.record == log[|log| - 1].record
    ensures OneAtATime(log + [e])
  {
    forall k | 0 <= k < |log + [e]| ensures InTurn(log + [e], k) {
      assert k < |log| ==> InTurn(log, k);
    }
  }

  /** Every reachable system keeps all of it. */
  lemma {:induction false} ReachedKeeps(jobs: Jobs, schedule: seq<Action>)
    ensures Reached(jobs, schedule).Some? ==> Keeps(jobs, Reached(jobs, schedule).value)
    decreases |schedule|
  {
    hide Keeps, Step, Enabled;
    if schedule == [] {
      IdleKeeps(jobs);
    } else {
      var before := Reached(jobs, schedule[..|schedule| - 1]);
      var action := schedule[|schedule| - 1];
      ReachedKeeps(jobs, schedule[..|schedule| - 1]);
      if before.Some? && Enabled(jobs, before.value, action) {
        StepKeeps(jobs, before.value, action);
      }
    }
  }

  lemma StepKeeps(jobs: Jobs, sys: System, action: Action)
    requires Keeps(jobs, sys) && Enabled(jobs, sys, action)
    ensures Keeps(jobs, Step(jobs, sys, action))
  {
    hide Step, Enabled, LockKeeps, LogKeeps, ReaderKeeps, CallsKeep;
    StepKeepsReaders(jobs, sys, action);
    StepKeepsLog(jobs, sys, action, Stdout);
    StepKeepsLog(jobs, sys, action, Stderr);
    StepKeepsLock(jobs, sys, action);
    StepKeepsCalls(jobs, sys, action);
  }

  lemma IdleKeeps(jobs: Jobs)
    ensures Keeps(jobs, IDLE)
  {
    hide Complete, Feed;
    forall stream ensures ReaderKeeps(jobs.Of(stream), START) {
      var job := jobs.Of(stream);
      assert job.chunks[0..] == job.chunks && job.chunks[..0] == [];
      assert job.observed ==> [] + [] + Future(job, START) == Drain(job.chunks, job.last);
    }
  }

  // The results

  /**
   In every interleaving: calls of the observer never overlap, each stream is delivered as a
   prefix of its own records in order, and no call follows the first exception, on either stream.
   */
  lemma CallsAreSafe(jobs: Jobs, schedule: seq<Action>)
    requires Reached(jobs, schedule).Some?
    ensures var log := Reached(jobs, schedule).value.log;
            && OneAtATime(log)
            && (forall stream :: Delivered(log, stream)
                  <= if jobs.Of(stream).observed then Drain(jobs.Of(stream).chunks, jobs.Of(stream).last) else [])
            && (forall k | 0 <= k < |log| && Raised(log[k]) :: k == |log| - 1)
  {
    hide Drain, Future, OneAtATime, Delivered, Replies, Raised;
    ReachedKeeps(jobs, schedule);
    var sys := Reached(jobs, schedule).value;
    forall stream ensures Delivered(sys.log, stream)
                  <= if jobs.Of(stream).observed then Drain(jobs.Of(stream).chunks, jobs.Of(stream).last) else []
    {
      assert ReaderKeeps(jobs.Of(stream), sys.Of(stream)) && LogKeeps(jobs.Of(stream), sys, stream);
      var r := sys.Of(stream);
      assert r.handled + r.queue <= r.handled + r.queue + Future(jobs.Of(stream), r);
    }
  }

  predicate Finished(sys: System) { sys.out.at.Closed? && sys.err.at.Closed? }

  /** What is left to do for a thread. */
  function Work(job: Job, r: Reader): int {
    4 * (|r.queue| + |Future(job, r)|)
    - (match r.at case Holding => 1 case Calling => 2 case Showing(_) => 3 case _ => 0)
    + (|job.chunks| - r.read) + (if r.ended then 0 else 1) + (if r.at.Closed? then 0 else 1)
  }

  function AllWork(jobs: Jobs, sys: System): int {
    Work(jobs.out, sys.out) + Work(jobs.err, sys.err)
  }

  lemma WorkIsNatural(job: Job, r: Reader)
    requires ReaderKeeps(job, r)
    ensures Work(job, r) >= 0
  {
    hide Future;
  }

  lemma ReadMoreWorks(job: Job, r: Reader)
    requires ReaderKeeps(job, r) && r.at == Free && r.queue == [] && !r.ended
    ensures Work(job, ReadMore(job, r)) < Work(job, r)
  {
    hide Complete;
    var r' := ReadMore(job, r);
    if job.observed {
      if r.read < |job.chunks| {
        var step := Complete(r.pending + job.chunks[r.read], false);
        assert job.chunks[r.read..][1..] == job.chunks[r.read + 1..];
        assert Future(job, r) == step.records + Future(job, r');
        assert r'.queue == step.records by { assert step.records + [] == step.records; }
      } else {
        assert job.chunks[r.read..] == [];
        CompleteIsBounded(r.pending + job.last, true);
        assert r'.queue == Future(job, r);
      }
    }
  }

  lemma DequeuedWorks(job: Job, r: Reader)
    requires ReaderKeeps(job, r) && r.queue != []
    ensures Work(job, Dequeued(r)) < Work(job, r)
    ensures forall shown :: Work(job, Dequeued(r).(shown := shown)) == Work(job, Dequeued(r))
  {
    hide Complete, Feed;
  }

  lemma NextReaderWorks(job: Job, r: Reader, kind: Kind)
    requires ReaderKeeps(job, r) && Possible(job, r, kind)
    ensures Work(job, NextReader(job, r, kind)) < Work(job, r)
  {
    hide Complete, Feed, Drain, ReadMore;
    match kind
    case Read => ReadMoreWorks(job, r);
    case Finish => ReadMoreWorks(job, r);
    case Skip => DequeuedWorks(job, r);
    case Raise => DequeuedWorks(job, r);
    case Show => DequeuedWorks(job, r);
    case _ =>
  }

  /** Every step leaves less to do. */
  lemma StepWorks(jobs: Jobs, sys: System, action: Action)
    requires Keeps(jobs, sys) && Enabled(jobs, sys, action)
    ensures AllWork(jobs, Step(jobs, sys, action)) < AllWork(jobs, sys)
  {
    hide Work, ReaderKeeps, LogKeeps, LockKeeps, CallsKeep, Possible, NextReader;
    EnabledIsPossible(jobs, sys, action);
    assert ReaderKeeps(jobs.Of(action.stream), sys.Of(action.stream));
    NextReaderWorks(jobs.Of(action.stream), sys.Of(action.stream), action.kind);
  }

  /** Until both pipes are closed some step is possible: no thread waits for ever. */
  lemma NeverStuck(jobs: Jobs, sys: System) returns (action: Action)
    requires Keeps(jobs, sys) && !Finished(sys)
    ensures Enabled(jobs, sys, action)
  {
    hide Complete, Feed, Drain, Delivered, Replies, OneAtATime, LogKeeps, Future, CallsKeep;
    var stream := if sys.lock.Some? then sys.lock.value else if !sys.out.at.Closed? then Stdout else Stderr;
    var job, r := jobs.Of(stream), sys.Of(stream);
    assert ReaderKeeps(job, r);
    action := Action(stream,
      match r.at
      case Holding => if sys.failed then Skip else Call
      case Calling => Raise
      case Showing(_) => Show
      case Closed => Close
      case Free =>
        if r.queue != [] then Acquire
        else if r.ended then Close
        else if r.read < |job.chunks| then Read
        else Finish);
  }

  lemma {:induction false} SchedulesAreShort(jobs: Jobs, schedule: seq<Action>)
    requires Reached(jobs, schedule).Some?
    ensures AllWork(jobs, Reached(jobs, schedule).value) + |schedule| <= AllWork(jobs, IDLE)
    decreases |schedule|
  {
    hide Step, Enabled, AllWork, Keeps;
    if schedule != [] {
      var earlier := schedule[..|schedule| - 1];
      SchedulesAreShort(jobs, earlier);
      ReachedKeeps(jobs, earlier);
      StepWorks(jobs, Reached(jobs, earlier).value, schedule[|schedule| - 1]);
    }
  }

  /**
   Every schedule is finite and can be continued until both pipes were read to their end and
   closed, whatever the observer does. If it never raised, every record was delivered and the
   buffers hold exactly its answers, or the chunks as they came when nothing is observed.
   */
  lemma BothPipesAreDrained(jobs: Jobs, schedule: seq<Action>)
    requires Reached(jobs, schedule).Some?
    ensures |schedule| <= AllWork(jobs, IDLE)
    ensures var sys := Reached(jobs, schedule).value;
            && ((forall action :: !Enabled(jobs, sys, action)) <==> Finished(sys))
            && (Finished(sys) ==> forall stream :: PipeIsDrained(jobs.Of(stream), sys, stream))
  {
    hide AllWork, Keeps;
    ReachedKeeps(jobs, schedule);
    SchedulesAreShort(jobs, schedule);
    var sys := Reached(jobs, schedule).value;
    AllWorkIsNatural(jobs, sys);
    if Finished(sys) {
      forall action ensures !Enabled(jobs, sys, action) {
        assert sys.Of(action.stream).at.Closed?;
      }
      forall stream ensures PipeIsDrained(jobs.Of(stream), sys, stream) {
        ClosedIsDrained(jobs, sys, stream);
      }
    } else {
      var action := NeverStuck(jobs, sys);
    }
  }

  lemma AllWorkIsNatural(jobs: Jobs, sys: System)
    requires Keeps(jobs, sys)
    ensures AllWork(jobs, sys) >= 0
  {
    hide Work, ReaderKeeps, LogKeeps, LockKeeps, CallsKeep;
    assert ReaderKeeps(jobs.Of(Stdout), sys.Of(Stdout)) && ReaderKeeps(jobs.Of(Stderr), sys.Of(Stderr));
    WorkIsNatural(jobs.out, sys.out);
    WorkIsNatural(jobs.err, sys.err);
  }

  /** The pipe was read to its end; without an exception nothing of it is missing anywhere. */
  predicate PipeIsDrained(job: Job, sys: System, stream: Stream) {
    var r := sys.Of(stream);
    && r.ended && r.read == |job.chunks|
    && (job.observed && !sys.failed ==>
          Delivered(sys.log, stream) == Drain(job.chunks, job.last) && r.shown == Replies(sys.log, stream))
    && (!job.observed ==> Delivered(sys.log, stream) == [] && r.shown == job.chunks + [job.last])
  }

  lemma ClosedIsDrained(jobs: Jobs, sys: System, stream: Stream)
    requires Keeps(jobs, sys) && Finished(sys)
    ensures PipeIsDrained(jobs.Of(stream), sys, stream)
  {
    hide Drain, Delivered, Replies, LockKeeps, CallsKeep;
    var job, r := jobs.Of(stream), sys.Of(stream);
    assert ReaderKeeps(job, r) && LogKeeps(job, sys, stream);
    assert sys.Of(stream).at.Closed?;
    if job.observed {
      assert r.handled + [] + [] == r.handled && r.shown + [] == r.shown;
    } else {
      assert job.chunks[..r.read] == job.chunks;
    }
  }
}
