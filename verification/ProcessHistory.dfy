/**
 * What the record of one child says, told from the run alone: which events came, and in which
 * order. Every fact, every signal and every visible exit is there exactly when its cause is.
 */
module ProcessHistory {
  import opened Prelude
  import opened ProcessTasks

  // ------------------------------------------------------------------ what has happened

  /** What the child's exit was reaped as, if it was. */
  function FirstReap(schedule: seq<Event>): Option<Outcome> {
    if schedule == [] then None
    else
      var before, e := FirstReap(schedule[..|schedule| - 1]), schedule[|schedule| - 1];
      if before.None? && e.OfCore? && e.ce.Reap? then Some(e.ce.facts) else before
  }

  /** Things that happen once in the life of a child. */
  datatype Mark =
    | Disposed
    | Closed
    | ReaperSettled
    | Settled
    | Visible
    | Asked
    | Terminated
    | Escalated
    | Killed
    | KilledByDispose
    | Told(caller: nat)

  /** Asking to terminate: a caller, or a reader whose frame was refused. */
  predicate Asks(s: State, e: Event) {
    || (e.OfCore? && e.ce.Terminate?)
    || (e.OfReader? && e.re.TerminateAfterOverflow? && e.w in s.streams && s.streams[e.w].at.Abandoning?)
  }

  /** Whether the event brings the mark about, after the events before it. */
  ghost predicate Brings(m: Mark, s0: State, before: seq<Event>, e: Event)
    decreases |before|, 1
  {
    match m
    case Disposed => e.OfCore? && e.ce.Dispose?
    case Closed =>
      && e.OfCore? && FirstReap(before).Some?
      && (if Run(s0, before).readersLeft == 0 then e.ce.SeeReadersGone? else e.ce.GraceElapsed?)
    case ReaperSettled => e.OfCore? && e.ce.SettleFacts? && Happened(Closed, s0, before)
    case Settled => e.OfCore? && (e.ce.Dispose? || (e.ce.SettleFacts? && Happened(Closed, s0, before)))
    case Visible =>
      && e.OfCore?
      && ((e.ce.PublishSettled? && Happened(ReaperSettled, s0, before)) || (e.ce.DisposeSend? && Happened(Disposed, s0, before)))
    case Asked => Asks(Run(s0, before), e) && !Happened(Settled, s0, before)
    case Terminated => e == OfCore(SendTerm) && Happened(Asked, s0, before)
    case Escalated => e == OfCore(CheckEscalate) && Happened(Terminated, s0, before) && !Happened(Settled, s0, before)
    case Killed => e == OfCore(SendKill) && Happened(Escalated, s0, before)
    case KilledByDispose => e == OfCore(Dispose(true)) && !Happened(Settled, s0, before)
    case Told(caller) => e == OfCore(WaitReturns(caller)) && Happened(Visible, s0, before)
  }

  ghost predicate Happened(m: Mark, s0: State, schedule: seq<Event>)
    decreases |schedule|, 0
  {
    schedule != [] &&
      var n := |schedule| - 1;
      Happened(m, s0, schedule[..n]) || Brings(m, s0, schedule[..n], schedule[n])
  }

  // --------------------------------------------------------- the record tells what happened

  predicate HasClosed(r: Reaper) { r.Settling? || HasSettled(r) }

  predicate HasSettled(r: Reaper) { r.Publishing? || r.Done? }

  ghost predicate FactsTell(s0: State, schedule: seq<Event>, c: Core) {
    && c.facts.exitFacts == FirstReap(schedule) && (c.reaper.Waiting? <==> FirstReap(schedule).None?)
    && (c.facts.disposed <==> Happened(Disposed, s0, schedule))
    && (HasClosed(c.reaper) <==> Happened(Closed, s0, schedule))
    && (HasSettled(c.reaper) <==> Happened(ReaperSettled, s0, schedule))
    && (c.facts.settled.Some? <==> Happened(Settled, s0, schedule))
    && (c.watch.Some? <==> Happened(Visible, s0, schedule))
    && forall caller: nat :: caller in c.returned <==> Happened(Told(caller), s0, schedule)
  }

  ghost predicate SignalsTell(s0: State, schedule: seq<Event>, c: Core) {
    && (c.facts.terminating <==> Happened(Asked, s0, schedule))
    && (LadderTerm in c.signals <==> Happened(Terminated, s0, schedule))
    && (LadderTerm in c.signals <==> !c.ladder.NoLadder? && !c.ladder.Begun?)
    && (c.ladder.Escalating? || LadderKill in c.signals <==> Happened(Escalated, s0, schedule))
    && (LadderKill in c.signals <==> Happened(Killed, s0, schedule))
    && (LadderKill in c.signals ==> c.ladder.Over?)
    && (c.ladder.Over? && LadderKill !in c.signals ==> c.facts.settled.Some?)
    && (DisposeKill in c.signals <==> Happened(KilledByDispose, s0, schedule))
  }

  lemma OneMore(s0: State, schedule: seq<Event>, e: Event)
    ensures Run(s0, schedule + [e]) == Step(Run(s0, schedule), e)
    ensures forall m: Mark :: Happened(m, s0, schedule + [e]) <==> Happened(m, s0, schedule) || Brings(m, s0, schedule, e)
    ensures FirstReap(schedule + [e])
         == if FirstReap(schedule).None? && e.OfCore? && e.ce.Reap? then Some(e.ce.facts) else FirstReap(schedule)
  {
    assert (schedule + [e])[..|schedule|] == schedule;
  }

  lemma CoreFactsTell(s0: State, schedule: seq<Event>, ce: CoreEvent)
    requires var s := Run(s0, schedule); CoreOk(s.core) && FactsTell(s0, schedule, s.core)
    ensures var s := Run(s0, schedule);
            FactsTell(s0, schedule + [OfCore(ce)], CoreStep(s.core, s.readersLeft, ce))
  {
    hide SignalsOk, Run, Happened, FirstReap, Step;
    OneMore(s0, schedule, OfCore(ce));
    match ce
    case Reap(_) =>
    case SeeReadersGone =>
    case GraceElapsed =>
    case SettleFacts =>
    case PublishSettled =>
    case Terminate =>
    case SendTerm =>
    case CheckEscalate =>
    case SendKill =>
    case Dispose(_) =>
    case DisposeSend =>
    case WaitReturns(_) =>
  }

  lemma CoreSignalsTell(s0: State, schedule: seq<Event>, ce: CoreEvent)
    requires var s := Run(s0, schedule); CoreOk(s.core) && FactsTell(s0, schedule, s.core) && SignalsTell(s0, schedule, s.core)
    ensures var s := Run(s0, schedule);
            SignalsTell(s0, schedule + [OfCore(ce)], CoreStep(s.core, s.readersLeft, ce))
  {
    hide SignalsOk, Run, Happened, FirstReap, Step, SignalsTell;
    if ce.Terminate? || ce.SendTerm? || ce.CheckEscalate? || ce.SendKill? {
      LadderTells(s0, schedule, ce);
    } else if ce.Dispose? {
      DisposeTells(s0, schedule, ce);
    } else {
      OthersTell(s0, schedule, ce);
    }
  }

  /** What the signals are told from, of the facts. */
  ghost predicate SettledTells(s0: State, schedule: seq<Event>, c: Core) {
    && (c.facts.settled.Some? <==> Happened(Settled, s0, schedule))
    && (c.facts.disposed ==> c.facts.settled.Some?) && (c.facts.terminating <==> !c.ladder.NoLadder?)
  }

  lemma LadderTells(s0: State, schedule: seq<Event>, ce: CoreEvent)
    requires ce.Terminate? || ce.SendTerm? || ce.CheckEscalate? || ce.SendKill?
    requires SignalsTell(s0, schedule, Run(s0, schedule).core) && SettledTells(s0, schedule, Run(s0, schedule).core)
    ensures var s := Run(s0, schedule);
            SignalsTell(s0, schedule + [OfCore(ce)], CoreStep(s.core, s.readersLeft, ce))
  {
    hide Run, Happened, FirstReap, Step;
    OneMore(s0, schedule, OfCore(ce));
    SignalsGrow(Run(s0, schedule).core.signals);
  }

  lemma DisposeTells(s0: State, schedule: seq<Event>, ce: CoreEvent)
    requires ce.Dispose?
    requires SignalsTell(s0, schedule, Run(s0, schedule).core) && SettledTells(s0, schedule, Run(s0, schedule).core)
    ensures var s := Run(s0, schedule);
            SignalsTell(s0, schedule + [OfCore(ce)], CoreStep(s.core, s.readersLeft, ce))
  {
    hide Run, Happened, FirstReap, Step;
    OneMore(s0, schedule, OfCore(ce));
    SignalsGrow(Run(s0, schedule).core.signals);
  }

  lemma OthersTell(s0: State, schedule: seq<Event>, ce: CoreEvent)
    requires !ce.Terminate? && !ce.SendTerm? && !ce.CheckEscalate? && !ce.SendKill? && !ce.Dispose?
    requires SignalsTell(s0, schedule, Run(s0, schedule).core) && SettledTells(s0, schedule, Run(s0, schedule).core)
    ensures var s := Run(s0, schedule);
            SignalsTell(s0, schedule + [OfCore(ce)], CoreStep(s.core, s.readersLeft, ce))
  {
    hide Run, Happened, FirstReap, Step;
    OneMore(s0, schedule, OfCore(ce));
  }

  lemma SignalsGrow(signals: seq<Signal>)
    ensures forall x, y :: x in signals + [y] <==> x in signals || x == y
    ensures signals + [] == signals
  {
  }

  /** A reader can only ask to terminate. */
  lemma ReaderTells(s0: State, schedule: seq<Event>, w: Which, re: ReaderEvent)
    requires var c := Run(s0, schedule).core; CoreOk(c) && FactsTell(s0, schedule, c) && SignalsTell(s0, schedule, c)
    ensures var e := OfReader(w, re);
            var c := Run(s0, schedule + [e]).core;
            FactsTell(s0, schedule + [e], c) && SignalsTell(s0, schedule + [e], c)
  {
    hide SignalsOk, Run, Happened, FirstReap, ReaderStep;
    OneMore(s0, schedule, OfReader(w, re));
    var s := Run(s0, schedule);
    if w in s.streams { ReaderAsks(w, s.streams[w], s.core.facts.FramesStopped(), re); }
  }

  lemma ReaderAsks(w: Which, x: Stream, stopped: bool, re: ReaderEvent)
    ensures ReaderStep(w, x, stopped, re).terminate <==> re.TerminateAfterOverflow? && x.at.Abandoning?
  {
  }

  lemma {:induction false} RunTells(streams: set<Which>, piped: set<Which>, schedule: seq<Event>)
    ensures var s0 := Start(streams, piped);
            var c := Run(s0, schedule).core;
            CoreOk(c) && FactsTell(s0, schedule, c) && SignalsTell(s0, schedule, c)
  {
    hide Step, CoreStep, SignalsOk;
    var s0 := Start(streams, piped);
    StartInv(streams, piped);
    RunKeepsInv(s0, schedule);
    if schedule != [] {
      hide CoreOk, FactsTell, SignalsTell, Happened, FirstReap, Run;
      var n := |schedule| - 1;
      RunTells(streams, piped, schedule[..n]);
      assert schedule == schedule[..n] + [schedule[n]];
      match schedule[n]
      case OfReader(w, re) => ReaderTells(s0, schedule[..n], w, re);
      case OfCore(ce) =>
        CoreFactsTell(s0, schedule[..n], ce);
        CoreSignalsTell(s0, schedule[..n], ce);
        CoreMoves(s0, schedule[..n], ce);
    }
  }

  lemma CoreMoves(s0: State, schedule: seq<Event>, ce: CoreEvent)
    ensures var s := Run(s0, schedule); Run(s0, schedule + [OfCore(ce)]).core == CoreStep(s.core, s.readersLeft, ce)
  {
    hide CoreStep;
    OneMore(s0, schedule, OfCore(ce));
  }

  // ------------------------------------------------------------------------ main results

  /**
   * In every run: disposed, terminating and settled facts and a visible exit are there exactly
   * when an event brought them about, and so is each signal. The group is terminated when the
   * ladder sends its first signal, killed when the facts were still open at the ladder's check,
   * and killed by a dispose that finds it alive and the facts open.
   */
  lemma RecordTellsWhatHappened(streams: set<Which>, piped: set<Which>, schedule: seq<Event>)
    ensures var s0 := Start(streams, piped);
            var c := Run(s0, schedule).core;
            && c.facts.exitFacts == FirstReap(schedule)
            && (c.facts.disposed <==> Happened(Disposed, s0, schedule))
            && (c.facts.settled.Some? <==> Happened(Settled, s0, schedule))
            && (c.watch.Some? <==> Happened(Visible, s0, schedule))
            && (forall caller: nat :: caller in c.returned <==> Happened(Told(caller), s0, schedule))
            && (c.facts.terminating <==> Happened(Asked, s0, schedule))
            && (LadderTerm in c.signals <==> Happened(Terminated, s0, schedule))
            && (LadderKill in c.signals <==> Happened(Killed, s0, schedule))
            && (DisposeKill in c.signals <==> Happened(KilledByDispose, s0, schedule))
  {
    hide Run, Happened, FirstReap, CoreOk;
    RunTells(streams, piped, schedule);
  }

  /** The facts were settled here, as what was reaped before; for want of a reap, by a dispose. */
  ghost predicate SettledAt(s0: State, schedule: seq<Event>, n: nat, settled: Option<Outcome>) {
    && n < |schedule| && Brings(Settled, s0, schedule[..n], schedule[n]) && !Happened(Settled, s0, schedule[..n])
    && match FirstReap(schedule[..n])
       case Some(reaped) => settled == Some(reaped)
       case None => settled == Some(Unknown) && Brings(Disposed, s0, schedule[..n], schedule[n])
  }

  lemma SettlingTakesTheReaped(s: State, e: Event)
    requires Inv(s) && s.core.facts.settled.None? && Step(s, e).core.facts.settled.Some?
    ensures Step(s, e).core.facts.settled == Some(if s.core.facts.exitFacts.Some? then s.core.facts.exitFacts.value else Unknown)
  {
    hide ReaderStep, FramesOf, StreamOk, CoreOk, Unfinished;
  }

  /**
   * In every run settled facts are those of the first reap, if it came before the settling; a
   * child is settled as unknown for want of a reap only by a dispose.
   */
  lemma {:induction false} SettledAsReaped(streams: set<Which>, piped: set<Which>, schedule: seq<Event>)
    ensures var s0 := Start(streams, piped);
            var settled := Run(s0, schedule).core.facts.settled;
            settled.Some? ==> exists n: nat :: SettledAt(s0, schedule, n, settled)
  {
    hide Step, CoreOk, Happened, FirstReap, Inv, SettledAt, Run;
    var s0 := Start(streams, piped);
    StartInv(streams, piped);
    if schedule == [] {
      NothingSettled(s0);
    } else {
      var n := |schedule| - 1;
      var m := Run(s0, schedule[..n]);
      assert schedule[..n] + [schedule[n]] == schedule;
      OneMore(s0, schedule[..n], schedule[n]);
      SettledAsReaped(streams, piped, schedule[..n]);
      RunKeepsInv(s0, schedule[..n]);
      if m.core.facts.settled.Some? {
        SettledKept(m, schedule[n]);
        var k: nat :| SettledAt(s0, schedule[..n], k, m.core.facts.settled);
        SettledLonger(s0, schedule, k, m.core.facts.settled);
      } else if Run(s0, schedule).core.facts.settled.Some? {
        SettledNow(streams, piped, schedule);
      }
    }
  }

  lemma NothingSettled(s0: State)
    ensures Run(s0, []) == s0
  {
  }

  lemma SettledLonger(s0: State, schedule: seq<Event>, k: nat, settled: Option<Outcome>)
    requires schedule != [] && SettledAt(s0, schedule[..|schedule| - 1], k, settled)
    ensures SettledAt(s0, schedule, k, settled)
  {
    hide Happened, FirstReap, Brings;
    assert schedule[..|schedule| - 1][..k] == schedule[..k];
  }

  lemma SettledNow(streams: set<Which>, piped: set<Which>, schedule: seq<Event>)
    requires schedule != []
    requires Run(Start(streams, piped), schedule[..|schedule| - 1]).core.facts.settled.None?
    requires Run(Start(streams, piped), schedule).core.facts.settled.Some?
    ensures var s0 := Start(streams, piped); SettledAt(s0, schedule, |schedule| - 1, Run(s0, schedule).core.facts.settled)
  {
    hide Step, CoreOk, Happened, FirstReap, Inv, Run, SignalsTell;
    var s0, n := Start(streams, piped), |schedule| - 1;
    assert schedule[..n] + [schedule[n]] == schedule;
    OneMore(s0, schedule[..n], schedule[n]);
    StartInv(streams, piped);
    RunKeepsInv(s0, schedule[..n]);
    RunTells(streams, piped, schedule[..n]);
    RunTells(streams, piped, schedule);
    SettlingTakesTheReaped(Run(s0, schedule[..n]), schedule[n]);
  }

  lemma {:induction false} ReapedForGood(schedule: seq<Event>, n: nat)
    requires n <= |schedule| && FirstReap(schedule[..n]).Some?
    ensures FirstReap(schedule) == FirstReap(schedule[..n])
  {
    if n < |schedule| {
      assert schedule[..|schedule| - 1][..n] == schedule[..n];
      ReapedForGood(schedule[..|schedule| - 1], n);
    } else {
      assert schedule[..n] == schedule;
    }
  }

  /** Without a dispose, the exit a client sees is the one that was reaped. */
  lemma VisibleExitIsTheReaped(streams: set<Which>, piped: set<Which>, schedule: seq<Event>)
    requires forall e :: e in schedule ==> !(e.OfCore? && e.ce.Dispose?)
    ensures var watch := Run(Start(streams, piped), schedule).core.watch;
            watch.Some? ==> FirstReap(schedule).Some? && watch == FirstReap(schedule)
  {
    hide Run, Happened, FirstReap;
    var s0 := Start(streams, piped);
    var c := Run(s0, schedule).core;
    RunTells(streams, piped, schedule);
    SettledAsReaped(streams, piped, schedule);
    if c.watch.Some? {
      var n: nat :| SettledAt(s0, schedule, n, c.facts.settled);
      assert schedule[n] in schedule;
      ReapedForGood(schedule, n);
    }
  }

  // ------------------------------------------------------------- readers do get through

  /** What a reader does with a chunk while frames are wanted. */
  function Forward(w: Which, chunk: seq<Byte>): seq<Event> {
    [OfReader(w, ReadChunk(chunk)), OfReader(w, CheckState), OfReader(w, TakeNumber), OfReader(w, Notify(true))]
  }

  function Moved(s: State, w: Which, x: Stream): State { s.(streams := s.streams[w := x]) }

  /** A quiet step of a reader changes its stream and nothing else. */
  lemma ReaderMoves(s: State, w: Which, x: Stream, re: ReaderEvent, to: Stream)
    requires w in s.streams && ReaderStep(w, x, s.core.facts.FramesStopped(), re) == Quiet(to)
    ensures Step(Moved(s, w, x), OfReader(w, re)) == Moved(s, w, to)
  {
    assert s.queue + [] == s.queue;
    assert s.streams[w := x][w := to] == s.streams[w := to];
  }

  lemma FrameIsQueued(s: State, w: Which, x: Stream)
    requires w in s.streams && x.at.Numbered?
    ensures Step(Moved(s, w, x), OfReader(w, Notify(true)))
         == Moved(s, w, x.(at := Reading)).(queue := s.queue + [Frame(w, x.at.number, x.at.chunk)])
  {
    assert s.streams[w := x][w := x.(at := Reading)] == s.streams[w := x.(at := Reading)];
  }

  /** A chunk that a piped stream's reader takes while frames are wanted becomes the stream's next frame. */
  lemma ChunkBecomesNextFrame(s: State, w: Which, chunk: seq<Byte>)
    requires w in s.streams && s.streams[w].piped && s.streams[w].at.Reading? && !s.core.facts.FramesStopped() && chunk != []
    ensures var x := s.streams[w];
            Run(s, Forward(w, chunk))
              == Moved(s, w, x.(read := x.read + chunk, counter := x.counter + 1)).(queue := s.queue + [Frame(w, x.counter, chunk)])
  {
    var events := Forward(w, chunk);
    RunFour(s, events[0], events[1], events[2], events[3]);
    hide Run, Step;
    var x := s.streams[w].(read := s.streams[w].read + chunk);
    assert s == Moved(s, w, s.streams[w]) by { assert s.streams[w := s.streams[w]] == s.streams; }
    ReaderMoves(s, w, s.streams[w], ReadChunk(chunk), x.(at := Captured(chunk)));
    ReaderMoves(s, w, x.(at := Captured(chunk)), CheckState, x.(at := Admitted(chunk)));
    var numbered := x.(at := Numbered(chunk, x.counter), counter := x.counter + 1);
    ReaderMoves(s, w, x.(at := Admitted(chunk)), TakeNumber, numbered);
    FrameIsQueued(s, w, numbered);
  }

  function Forwards(w: Which, chunks: seq<seq<Byte>>): seq<Event> {
    if chunks == [] then [] else Forwards(w, chunks[..|chunks| - 1]) + Forward(w, chunks[|chunks| - 1])
  }

  /** The chunks as frames, numbered on from `first`. */
  function AsFrames(w: Which, first: nat, chunks: seq<seq<Byte>>): seq<Frame> {
    if chunks == [] then []
    else
      var n := |chunks| - 1;
      AsFrames(w, first, chunks[..n]) + [Frame(w, first + n, chunks[n])]
  }

  /** The state once the chunks have all become frames of the stream. */
  function AllFramed(s: State, w: Which, chunks: seq<seq<Byte>>): State
    requires w in s.streams
  {
    var x := s.streams[w];
    Moved(s, w, x.(read := x.read + Flat(chunks), counter := x.counter + |chunks|))
      .(queue := s.queue + AsFrames(w, x.counter, chunks))
  }

  predicate Forwarding(s: State, w: Which) {
    w in s.streams && s.streams[w].piped && s.streams[w].at.Reading? && !s.core.facts.FramesStopped()
  }

  lemma {:induction false} ChunksBecomeFrames(s: State, w: Which, chunks: seq<seq<Byte>>)
    requires Forwarding(s, w) && forall i :: 0 <= i < |chunks| ==> chunks[i] != []
    ensures Run(s, Forwards(w, chunks)) == AllFramed(s, w, chunks)
  {
    if chunks == [] {
      var x := s.streams[w];
      assert s.streams[w := x] == s.streams && s.queue + [] == s.queue && x.read + [] == x.read;
    } else {
      hide Run, Forward, AllFramed, Forwarding;
      var n := |chunks| - 1;
      assert w in s.streams by { assert Forwarding(s, w); }
      ChunksBecomeFrames(s, w, chunks[..n]);
      RunConcat(s, Forwards(w, chunks[..n]), Forward(w, chunks[n]));
      LastChunk(s, w, chunks);
    }
  }

  lemma LastChunk(s: State, w: Which, chunks: seq<seq<Byte>>)
    requires Forwarding(s, w) && chunks != [] && chunks[|chunks| - 1] != []
    ensures Run(AllFramed(s, w, chunks[..|chunks| - 1]), Forward(w, chunks[|chunks| - 1])) == AllFramed(s, w, chunks)
  {
    hide Run, Forward, Flat, AsFrames;
    var n, x := |chunks| - 1, s.streams[w];
    var m := AllFramed(s, w, chunks[..n]);
    ChunkBecomesNextFrame(m, w, chunks[n]);
    LastFrame(w, x.counter, chunks);
    Grouped(x.read, Flat(chunks[..n]), chunks[n]);
    Grouped(s.queue, AsFrames(w, x.counter, chunks[..n]), [Frame(w, x.counter + n, chunks[n])]);
    var y := x.(read := x.read + Flat(chunks), counter := x.counter + |chunks|);
    assert m.streams[w := y] == s.streams[w := y];
  }

  lemma LastFrame(w: Which, first: nat, chunks: seq<seq<Byte>>)
    requires chunks != []
    ensures var n := |chunks| - 1;
            && Flat(chunks) == Flat(chunks[..n]) + chunks[n]
            && AsFrames(w, first, chunks) == AsFrames(w, first, chunks[..n]) + [Frame(w, first + n, chunks[n])]
  {
    FlatSnoc(chunks[..|chunks| - 1], chunks[|chunks| - 1]);
    assert chunks[..|chunks| - 1] + [chunks[|chunks| - 1]] == chunks;
  }

  lemma Grouped<T>(a: seq<T>, b: seq<T>, c: seq<T>)
    ensures (a + b) + c == a + (b + c)
  {
  }

  lemma NothingRun(s: State)
    ensures Run(s, []) == s
  {
  }

  /** The stream ends, the child exits, and its facts are settled and published. */
  function Ending(w: Which, exit: Outcome): seq<Event> {
    [OfReader(w, SeeEof), OfReader(w, CountDown)]
    + [OfCore(Reap(exit)), OfCore(SeeReadersGone), OfCore(SettleFacts), OfCore(PublishSettled)]
  }

  /** Whatever a child writes and however it exits, all of it arrives when nothing goes wrong. */
  lemma WholeOutputArrives(w: Which, chunks: seq<seq<Byte>>, exit: Outcome)
    requires forall i :: 0 <= i < |chunks| ==> chunks[i] != []
    ensures var t := Run(Start({w}, {w}), Forwards(w, chunks) + Ending(w, exit));
      && t.queue == AsFrames(w, 0, chunks) && w in t.streams && t.streams[w].read == Flat(chunks) && t.streams[w].at.Finished?
      && t.core.watch == Some(exit) && t.core.facts.settled == Some(exit) && t.core.signals == []
  {
    hide Run;
    var s0 := Start({w}, {w});
    ChunksBecomeFrames(s0, w, chunks);
    RunConcat(s0, Forwards(w, chunks), Ending(w, exit));
    var m := Run(s0, Forwards(w, chunks));
    assert [] + AsFrames(w, 0, chunks) == AsFrames(w, 0, chunks) && [] + Flat(chunks) == Flat(chunks);
    Ends(m, w, exit);
  }

  lemma Ends(s: State, w: Which, exit: Outcome)
    requires w in s.streams && s.streams[w].at.Reading? && s.readersLeft == 1
    requires s.core == Core(Facts(None, None, false, false, false), None, Waiting, NoLadder, [], 0, {})
    ensures var t := Run(s, Ending(w, exit));
      && t.queue == s.queue && t.streams == s.streams[w := s.streams[w].(at := Finished)]
      && t.core.watch == Some(exit) && t.core.facts.settled == Some(exit) && t.core.signals == []
  {
    var a, b := OfReader(w, SeeEof), OfReader(w, CountDown);
    var reap, gone, settle, publish := OfCore(Reap(exit)), OfCore(SeeReadersGone), OfCore(SettleFacts), OfCore(PublishSettled);
    RunConcat(s, [a, b], [reap, gone, settle, publish]);
    RunTwo(s, a, b);
    RunFour(Run(s, [a, b]), reap, gone, settle, publish);
    assert s.queue + [] == s.queue;
    hide Run;
  }

  lemma RefusalSteps(s: State, w: Which)
    requires w in s.streams && s.streams[w].at.Numbered?
    ensures var x, core := s.streams[w].(whole := false), s.core.(facts := s.core.facts.(abandoned := true));
            var s1 := Step(s, OfReader(w, Notify(false)));
            var s2 := Step(s1, OfReader(w, MarkAbandoned));
            && s1 == Moved(s, w, x.(at := Overflowed)).(refused := true)
            && s2 == Moved(s, w, x.(at := Abandoning)).(refused := true, core := core)
            && Step(s2, OfReader(w, TerminateAfterOverflow)) == Moved(s, w, x.(at := Reading)).(refused := true, core := BeginLadder(core))
  {
    hide BeginLadder;
    assert s.queue + [] == s.queue;
    var x := s.streams[w].(whole := false);
    assert s.streams[w := x.(at := Overflowed)][w := x.(at := Abandoning)] == s.streams[w := x.(at := Abandoning)];
    assert s.streams[w := x.(at := Abandoning)][w := x.(at := Reading)] == s.streams[w := x.(at := Reading)];
  }

  /** A chunk that arrives once frames have stopped is read and dropped, and one of an unpiped stream is only read. */
  lemma ChunkIsOnlyRead(s: State, w: Which, chunk: seq<Byte>)
    requires w in s.streams && s.streams[w].at.Reading? && chunk != []
    ensures var x := s.streams[w].(read := s.streams[w].read + chunk);
      && (!x.piped ==> Step(s, OfReader(w, ReadChunk(chunk))) == Moved(s, w, x))
      && (x.piped && (s.core.facts.disposed || s.core.facts.abandoned || s.core.facts.settled.Some?) ==>
            Step(Step(s, OfReader(w, ReadChunk(chunk))), OfReader(w, CheckState)) == Moved(s, w, x.(whole := false)))
  {
    hide Step;
    var x := s.streams[w].(read := s.streams[w].read + chunk);
    assert s == Moved(s, w, s.streams[w]) by { assert s.streams[w := s.streams[w]] == s.streams; }
    ReaderMoves(s, w, s.streams[w], ReadChunk(chunk), if x.piped then x.(at := Captured(chunk)) else x);
    if x.piped && s.core.facts.FramesStopped() { ReaderMoves(s, w, x.(at := Captured(chunk)), CheckState, x.(whole := false)); }
  }

  /** Frames a stream queues after the exit is settled, the child disposed or the stream given up: one at most. */
  lemma OneLateFrame(streams: set<Which>, piped: set<Which>, before: seq<Event>, after: seq<Event>, w: Which)
    requires w in Run(Start(streams, piped), before).streams
    requires var f := Run(Start(streams, piped), before).core.facts; f.settled.Some? || f.disposed || f.abandoned
    ensures var s := Run(Start(streams, piped), before);
            |FramesOf(Run(s, after).queue, w)| <= |FramesOf(s.queue, w)| + 1
  {
    hide Run, FramesOf, Inv;
    StartInv(streams, piped);
    RunKeepsInv(Start(streams, piped), before);
    LateFramesBounded(Run(Start(streams, piped), before), after, w);
  }

  /** A frame the outbound queue refuses ends the stream's frames and has the child terminated. */
  lemma RefusedFrameTerminates(s: State, w: Which)
    requires Inv(s) && w in s.streams && s.streams[w].at.Numbered?
    ensures var t := Run(s, [OfReader(w, Notify(false)), OfReader(w, MarkAbandoned), OfReader(w, TerminateAfterOverflow), OfCore(SendTerm)]);
      && t.queue == s.queue && w in t.streams && t.streams[w].at.Reading? && t.core.facts.abandoned
      && (t.core.facts.settled.None? ==> t.core.facts.terminating && LadderTerm in t.core.signals)
  {
    RunFour(s, OfReader(w, Notify(false)), OfReader(w, MarkAbandoned), OfReader(w, TerminateAfterOverflow), OfCore(SendTerm));
    hide Run, ReaderStep, StreamOk, FramesOf, Unfinished, BeginLadder, CoreStep, CoreOk;
    RefusalSteps(s, w);
    TermAfterAbandon(s.core, s.readersLeft);
  }

  lemma TermAfterAbandon(c: Core, readersLeft: nat)
    requires CoreOk(c)
    ensures var t := CoreStep(BeginLadder(c.(facts := c.facts.(abandoned := true))), readersLeft, SendTerm);
            t.facts.abandoned && (t.facts.settled.None? ==> t.facts.terminating && LadderTerm in t.signals)
  {
    TermedOrNot(c);
  }

  /** A ladder that is past its first signal has sent it. */
  lemma TermedOrNot(c: Core)
    requires CoreOk(c)
    ensures !c.ladder.NoLadder? && !c.ladder.Begun? ==> LadderTerm in c.signals
  {
    assert LadderTerm in multiset(c.signals) <==> LadderTerm in c.signals;
  }
}
