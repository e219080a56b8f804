/**
 * One managed child of the agent's subprocess backend: the tasks that read its streams, reap
 * it, terminate it, dispose of it and wait for it, interleaved at every lock and await.
 */
module ProcessTasks {
  import opened Prelude

  datatype Which = Out | Err | Control

  /** Exit facts; `Unknown` stands for a child whose facts could not be read. */
  datatype Outcome = Unknown | Known(code: int)

  datatype Frame = Frame(stream: Which, number: nat, data: seq<Byte>)

  /** A signal to the process group, and whether the terminate ladder or a dispose sent it. */
  datatype Signal = LadderTerm | LadderKill | DisposeKill

  // ------------------------------------------------- the facts behind the process lock

  /** The mutable facts one managed process keeps under its lock. */
  datatype Facts = Facts(
    exitFacts: Option<Outcome>,
    settled: Option<Outcome>,
    terminating: bool,
    abandoned: bool,
    disposed: bool)
  {
    /** The outcome to settle with when nobody has settled yet. */
    function Verdict(): Outcome {
      match exitFacts case Some(f) => f case None => Unknown
    }

    predicate FramesStopped() { disposed || abandoned || settled.Some? }

    function Settle(): Facts { if settled.None? then this.(settled := Some(Verdict())) else this }

    function Dispose(): Facts { if disposed then this else Settle().(disposed := true) }

    function Terminate(): Facts { if terminating || settled.Some? then this else this.(terminating := true) }

    predicate Escalates() { !disposed && settled.None? }
  }

  /** What stands once the facts are settled: what was settled before, else what was reaped, else nothing known. */
  function StandsAs(settled: Option<Outcome>, reaped: Option<Outcome>): Option<Outcome> {
    match (settled, reaped)
    case (Some(_), _) => settled
    case (None, Some(_)) => reaped
    case (None, None) => Some(Unknown)
  }

  /** The locked record itself: every critical section is one method. */
  class ProcessState {
    var exitFacts: Option<Outcome>
    var settled: Option<Outcome>
    var terminating: bool
    var abandoned: bool
    var disposed: bool

    function Now(): Facts
      reads this
    {
      Facts(exitFacts, settled, terminating, abandoned, disposed)
    }

    constructor ()
      ensures Now() == Facts(None, None, false, false, false)
    {
      exitFacts, settled, terminating, abandoned, disposed := None, None, false, false, false;
    }

    /** The section in which the reaper records how the child exited. */
    method RecordExit(reaped: Outcome)
      modifies this`exitFacts
      ensures exitFacts == Some(reaped)
    {
      exitFacts := Some(reaped);
    }

    /** The section in which a reader whose frame was refused gives its stream up. */
    method Abandon()
      modifies this`abandoned
      ensures abandoned
    {
      abandoned := true;
    }

    /** The first section of `terminate`; true when this call starts the ladder. */
    method BeginTerminate() returns (started: bool)
      modifies this`terminating
      ensures Now() == old(Now()).Terminate()
      ensures started <==> !old(terminating) && settled.None?
      ensures terminating <==> old(terminating) || settled.None?
    {
      if terminating || settled.Some? {
        return false;
      }
      terminating := true;
      return true;
    }

    /** The section between the ladder's two signals; true when the second may be sent. */
    method MayEscalate() returns (escalate: bool)
      ensures escalate == Now().Escalates()
      ensures escalate <==> !disposed && settled.None?
    {
      return !disposed && settled.None?;
    }

    /** The first section of `dispose`; true when this call is the one that disposes. */
    method BeginDispose() returns (first: bool)
      modifies this`disposed, this`settled
      ensures Now() == old(Now()).Dispose() && disposed
      ensures first <==> !old(disposed)
      ensures first || old(settled).Some? ==> settled == StandsAs(old(settled), exitFacts)
    {
      if disposed {
        return false;
      }
      disposed := true;
      if settled.None? {
        settled := Some(if exitFacts.Some? then exitFacts.value else Unknown);
      }
      return true;
    }

    /** The section in which the reaper settles the facts it recorded. */
    method SettleFacts() returns (published: Option<Outcome>)
      modifies this`settled
      ensures Now() == old(Now()).Settle() && published == settled
      ensures settled == StandsAs(old(settled), exitFacts)
    {
      if settled.None? {
        settled := Some(if exitFacts.Some? then exitFacts.value else Unknown);
      }
      return settled;
    }
  }

  // ------------------------------------------------------------------- one reader task

  /** Where the task reading one stream is. */
  datatype Reader =
    | Reading
    | Captured(chunk: seq<Byte>)
    | Admitted(chunk: seq<Byte>)
    | Numbered(chunk: seq<Byte>, number: nat)
    | Overflowed
    | Abandoning
    | AtEof
    | Finished

  /**
   * One captured stream. `read` is every byte its reader has read and `whole` says that
   * every chunk so far has been framed; both are history.
   */
  datatype Stream = Stream(piped: bool, at: Reader, counter: nat, read: seq<Byte>, whole: bool)

  datatype ReaderEvent =
    | ReadChunk(chunk: seq<Byte>)
    | CheckState
    | TakeNumber
    | Notify(accepted: bool)
    | MarkAbandoned
    | TerminateAfterOverflow
    | SeeEof
    | CountDown

  /** What one step of a reader does: to its stream, and to what it shares with other tasks. */
  datatype Effect = Effect(stream: Stream, queued: seq<Frame>, refused: bool, abandon: bool, terminate: bool, finish: bool)

  function Quiet(stream: Stream): Effect { Effect(stream, [], false, false, false, false) }

  /** One step of a reader; an event that is not its next one changes nothing. */
  function ReaderStep(w: Which, x: Stream, stopped: bool, e: ReaderEvent): Effect {
    match e
    case ReadChunk(chunk) =>
      if !x.at.Reading? || chunk == [] then Quiet(x)
      else
        var x' := x.(read := x.read + chunk);
        Quiet(if x.piped then x'.(at := Captured(chunk)) else x')
    case CheckState =>
      if !x.at.Captured? then Quiet(x)
      else if stopped then Quiet(x.(at := Reading, whole := false))
      else Quiet(x.(at := Admitted(x.at.chunk)))
    case TakeNumber =>
      if !x.at.Admitted? then Quiet(x)
      else Quiet(x.(at := Numbered(x.at.chunk, x.counter), counter := x.counter + 1))
    case Notify(accepted) =>
      if !x.at.Numbered? then Quiet(x)
      else if accepted then
        Quiet(x.(at := Reading)).(queued := [Frame(w, x.at.number, x.at.chunk)])
      else Quiet(x.(at := Overflowed, whole := false)).(refused := true)
    case MarkAbandoned =>
      if !x.at.Overflowed? then Quiet(x) else Quiet(x.(at := Abandoning)).(abandon := true)
    case TerminateAfterOverflow =>
      if !x.at.Abandoning? then Quiet(x) else Quiet(x.(at := Reading)).(terminate := true)
    case SeeEof =>
      if !x.at.Reading? then Quiet(x) else Quiet(x.(at := AtEof))
    case CountDown =>
      if !x.at.AtEof? then Quiet(x) else Quiet(x.(at := Finished)).(finish := true)
  }

  // -------------------------------------------------- reaper, ladder, disposers, waiters

  /** Where the reaper is; `drained` says whether it saw every reader finish. */
  datatype Reaper =
    | Waiting
    | Reaped
    | Settling(drained: bool)
    | Publishing(drained: bool, value: Option<Outcome>)
    | Done(drained: bool)

  datatype Ladder = NoLadder | Begun | Sleeping | Escalating | Over

  datatype Core = Core(
    facts: Facts,
    watch: Option<Outcome>,
    reaper: Reaper,
    ladder: Ladder,
    signals: seq<Signal>,
    pendingSends: nat,
    returned: set<nat>)

  datatype CoreEvent =
    | Reap(facts: Outcome)
    | SeeReadersGone
    | GraceElapsed
    | SettleFacts
    | PublishSettled
    | Terminate
    | SendTerm
    | CheckEscalate
    | SendKill
    | Dispose(groupAlive: bool)
    | DisposeSend
    | WaitReturns(caller: nat)

  function BeginLadder(c: Core): Core {
    if c.facts.Terminate() == c.facts then c else c.(facts := c.facts.Terminate(), ladder := Begun)
  }

  function CoreStep(c: Core, readersLeft: nat, e: CoreEvent): Core {
    match e
    case Reap(facts) =>
      if c.reaper.Waiting? then c.(reaper := Reaped, facts := c.facts.(exitFacts := Some(facts))) else c
    case SeeReadersGone =>
      if c.reaper.Reaped? && readersLeft == 0 then c.(reaper := Settling(true)) else c
    case GraceElapsed =>
      if c.reaper.Reaped? && readersLeft > 0 then c.(reaper := Settling(false)) else c
    case SettleFacts =>
      if !c.reaper.Settling? then c
      else c.(facts := c.facts.Settle(), reaper := Publishing(c.reaper.drained, c.facts.Settle().settled))
    case PublishSettled =>
      if c.reaper.Publishing? then c.(watch := c.reaper.value, reaper := Done(c.reaper.drained)) else c
    case Terminate => BeginLadder(c)
    case SendTerm =>
      if c.ladder.Begun? then c.(ladder := Sleeping, signals := c.signals + [LadderTerm]) else c
    case CheckEscalate =>
      if !c.ladder.Sleeping? then c
      else c.(ladder := if c.facts.Escalates() then Escalating else Over)
    case SendKill =>
      if c.ladder.Escalating? then c.(ladder := Over, signals := c.signals + [LadderKill]) else c
    case Dispose(groupAlive) =>
      if c.facts.disposed then c
      else
        c.(facts := c.facts.Dispose(), pendingSends := c.pendingSends + 1,
           signals := c.signals + if c.facts.settled.None? && groupAlive then [DisposeKill] else [])
    case DisposeSend =>
      if c.pendingSends > 0 then c.(watch := c.facts.settled, pendingSends := c.pendingSends - 1) else c
    case WaitReturns(caller) =>
      if c.watch.Some? then c.(returned := c.returned + {caller}) else c
  }

  // ------------------------------------------------------------------- the whole process

  datatype State = State(core: Core, streams: map<Which, Stream>, readersLeft: nat, queue: seq<Frame>, refused: bool)

  datatype Event = OfReader(w: Which, re: ReaderEvent) | OfCore(ce: CoreEvent)

  /** A freshly spawned child that captures `streams` and pushes `piped` of them. */
  function Start(streams: set<Which>, piped: set<Which>): State {
    State(Core(Facts(None, None, false, false, false), None, Waiting, NoLadder, [], 0, {}),
          map w | w in streams :: Stream(w in piped, Reading, 0, [], true), |streams|, [], false)
  }

  function Apply(s: State, w: Which, eff: Effect): State {
    var facts := if eff.abandon then s.core.facts.(abandoned := true) else s.core.facts;
    var core := s.core.(facts := facts);
    State(if eff.terminate then BeginLadder(core) else core,
          s.streams[w := eff.stream],
          if eff.finish && s.readersLeft > 0 then s.readersLeft - 1 else s.readersLeft,
          s.queue + eff.queued,
          s.refused || eff.refused)
  }

  function Step(s: State, e: Event): State {
    match e
    case OfReader(w, re) =>
      if w in s.streams then Apply(s, w, ReaderStep(w, s.streams[w], s.core.facts.FramesStopped(), re)) else s
    case OfCore(ce) => s.(core := CoreStep(s.core, s.readersLeft, ce))
  }

  function Run(s: State, schedule: seq<Event>): State {
    if schedule == [] then s else Step(Run(s, schedule[..|schedule| - 1]), schedule[|schedule| - 1])
  }

  // ------------------------------------------------------------------ what is invariant

  /** The frames of one stream, in the order they were queued. */
  function FramesOf(queue: seq<Frame>, w: Which): seq<Frame> {
    if queue == [] then []
    else
      var n := |queue| - 1;
      FramesOf(queue[..n], w) + if queue[n].stream == w then [queue[n]] else []
  }

  function DataOf(frames: seq<Frame>): seq<Byte> {
    if frames == [] then [] else DataOf(frames[..|frames| - 1]) + frames[|frames| - 1].data
  }

  predicate Consecutive(frames: seq<Frame>) {
    forall i :: 0 <= i < |frames| ==> frames[i].number == i
  }

  /** The chunk a reader holds between reading it and having its frame queued. */
  function Held(r: Reader): seq<Byte> {
    match r
    case Captured(c) => c
    case Admitted(c) => c
    case Numbered(c, _) => c
    case _ => []
  }

  ghost predicate StreamOk(x: Stream, frames: seq<Frame>, stopped: bool) {
    && Consecutive(frames)
    && (!x.piped ==> x.whole && frames == [] && !x.at.Captured? && !x.at.Admitted? && !x.at.Numbered? && !x.at.Overflowed?)
    && (x.piped && x.whole ==>
          && x.read == DataOf(frames) + Held(x.at)
          && x.counter == |frames| + (if x.at.Numbered? then 1 else 0)
          && (x.at.Numbered? ==> x.at.number == |frames|)
          && !x.at.Overflowed?)
    && (!x.whole ==>
          && DataOf(frames) <= x.read
          && !x.at.Admitted? && !x.at.Numbered?
          && (stopped || x.at.Overflowed?))
  }

  /** Whether facts were settled although a reader was still open. */
  predicate SettledEarly(r: Reaper) { (r.Publishing? || r.Done?) && !r.drained }

  predicate Drained(r: Reaper) { (r.Settling? || r.Publishing? || r.Done?) && r.drained }

  /** How often a signal was sent. */
  function Count(signals: seq<Signal>, x: Signal): nat { multiset(signals)[x] }

  /** No ladder kill without a ladder termination before it. */
  predicate TermFirst(signals: seq<Signal>) {
    forall i :: 0 <= i < |signals| && signals[i] == LadderKill ==> LadderTerm in signals[..i]
  }

  /** Who may have settled, what everyone who saw a settled value saw, and what was signalled. */
  ghost predicate CoreOk(c: Core) {
    && (c.watch.Some? ==> c.watch == c.facts.settled)
    && (c.pendingSends > 0 || c.facts.disposed ==> c.facts.settled.Some?)
    && (c.reaper.Publishing? ==> c.facts.settled.Some? && c.reaper.value == c.facts.settled)
    && (c.reaper.Done? ==> c.watch.Some?)
    && (c.facts.settled.Some? ==> c.facts.disposed || c.reaper.Publishing? || c.reaper.Done?)
    && (!c.reaper.Waiting? ==> c.facts.exitFacts.Some?)
    && (c.returned != {} ==> c.watch.Some?)
    && (c.facts.disposed ==> c.pendingSends == 1 || c.watch.Some?)
    && c.pendingSends <= (if c.facts.disposed then 1 else 0)
    && (c.facts.terminating <==> !c.ladder.NoLadder?)
    && SignalsOk(c)
  }

  /** Each signal at most once, and the ladder's in order. */
  ghost predicate SignalsOk(c: Core) {
    && Count(c.signals, LadderTerm) == (if c.ladder.NoLadder? || c.ladder.Begun? then 0 else 1)
    && Count(c.signals, LadderKill) <= (if c.ladder.Over? then 1 else 0)
    && Count(c.signals, DisposeKill) <= (if c.facts.disposed then 1 else 0)
    && TermFirst(c.signals)
  }

  function Unfinished(streams: map<Which, Stream>): set<Which> {
    set w | w in streams && !streams[w].at.Finished?
  }

  ghost predicate Inv(s: State) {
    && CoreOk(s.core)
    && s.readersLeft == |Unfinished(s.streams)|
    && (Drained(s.core.reaper) ==> s.readersLeft == 0)
    && (s.core.facts.abandoned ==> s.refused)
    && (forall w :: w in s.streams && s.streams[w].at.Overflowed? ==> s.refused)
    && (forall w :: w in s.streams ==>
          StreamOk(s.streams[w], FramesOf(s.queue, w), s.core.facts.FramesStopped()))
    && (forall w :: w in s.streams && !s.streams[w].whole ==>
          s.refused || s.core.facts.disposed || SettledEarly(s.core.reaper))
  }

  // --------------------------------------------------------------- every step keeps it

  lemma StartInv(streams: set<Which>, piped: set<Which>)
    ensures Inv(Start(streams, piped))
  {
    assert Unfinished(Start(streams, piped).streams) == streams;
  }

  lemma SignalSent(signals: seq<Signal>, x: Signal)
    requires x.LadderKill? ==> Count(signals, LadderTerm) > 0
    ensures forall y :: Count(signals + [x], y) == Count(signals, y) + (if y == x then 1 else 0)
    ensures TermFirst(signals) ==> TermFirst(signals + [x])
  {
    assert multiset(signals + [x]) == multiset(signals) + multiset{x};
    var sent := signals + [x];
    if TermFirst(signals) {
      forall i | 0 <= i < |sent| && sent[i] == LadderKill ensures LadderTerm in sent[..i] {
        if i < |signals| {
          assert sent[..i] == signals[..i];
        } else {
          assert sent[..i] == signals && LadderTerm in multiset(signals);
        }
      }
    }
  }

  lemma CoreStepKeepsSignals(c: Core, readersLeft: nat, e: CoreEvent)
    requires SignalsOk(c) && (c.facts.terminating <==> !c.ladder.NoLadder?)
    ensures SignalsOk(CoreStep(c, readersLeft, e))
  {
    hide Count, TermFirst;
    match e
    case Reap(_) =>
    case SeeReadersGone =>
    case GraceElapsed =>
    case SettleFacts =>
    case PublishSettled =>
    case Terminate =>
    case SendTerm => SignalSent(c.signals, LadderTerm);
    case CheckEscalate =>
    case SendKill => if c.ladder.Escalating? { SignalSent(c.signals, LadderKill); }
    case Dispose(_) =>
      SignalSent(c.signals, DisposeKill);
      assert c.signals + [] == c.signals;
    case DisposeSend =>
    case WaitReturns(_) =>
  }

  lemma CoreStepKeepsOk(c: Core, readersLeft: nat, e: CoreEvent)
    requires CoreOk(c)
    ensures CoreOk(CoreStep(c, readersLeft, e))
  {
    hide SignalsOk;
    CoreStepKeepsSignals(c, readersLeft, e);
    match e
    case Reap(_) =>
    case SeeReadersGone =>
    case GraceElapsed =>
    case SettleFacts =>
    case PublishSettled =>
    case Terminate =>
    case SendTerm =>
    case CheckEscalate =>
    case SendKill =>
    case Dispose(_) =>
    case DisposeSend =>
    case WaitReturns(_) =>
  }

  /** What the other tasks rely on: some facts only ever go one way. */
  lemma CoreStepMonotone(c: Core, readersLeft: nat, e: CoreEvent)
    requires CoreOk(c)
    ensures var c' := CoreStep(c, readersLeft, e);
            && (c.facts.FramesStopped() ==> c'.facts.FramesStopped())
            && c'.facts.abandoned == c.facts.abandoned
            && (c.facts.disposed ==> c'.facts.disposed)
            && (SettledEarly(c.reaper) ==> SettledEarly(c'.reaper))
            && (Drained(c'.reaper) ==> Drained(c.reaper) || readersLeft == 0)
            && (c.facts.settled.Some? ==> c'.facts.settled == c.facts.settled)
  {
  }

  /** The stream, the frames its step queues and the flags it raises fit together. */
  ghost predicate EffectOk(w: Which, x: Stream, frames: seq<Frame>, stopped: bool, eff: Effect) {
    && StreamOk(eff.stream, frames + eff.queued, stopped || eff.abandon)
    && |eff.queued| <= 1 && (eff.queued != [] ==> eff.queued[0].stream == w)
    && (!eff.stream.whole ==> !x.whole || eff.refused || stopped)
    && (eff.finish <==> !x.at.Finished? && eff.stream.at.Finished?)
    && (x.at.Finished? ==> eff == Quiet(x))
    && (eff.abandon ==> x.at.Overflowed?)
    && (eff.stream.at.Overflowed? ==> eff.refused || x.at.Overflowed?)
  }

  lemma AcceptedFrameKeepsStream(w: Which, x: Stream, frames: seq<Frame>, stopped: bool)
    requires StreamOk(x, frames, stopped) && x.at.Numbered?
    ensures EffectOk(w, x, frames, stopped, ReaderStep(w, x, stopped, Notify(true)))
  {
  }

  lemma QuietStepKeepsStream(w: Which, x: Stream, frames: seq<Frame>, stopped: bool, e: ReaderEvent)
    requires StreamOk(x, frames, stopped) && !(e.Notify? && e.accepted)
    ensures EffectOk(w, x, frames, stopped, ReaderStep(w, x, stopped, e))
  {
    hide DataOf;
    var eff := ReaderStep(w, x, stopped, e);
    assert eff.queued == [] && frames + [] == frames;
    match e
    case ReadChunk(chunk) =>
      assert (DataOf(frames) + Held(x.at)) + chunk == DataOf(frames) + (Held(x.at) + chunk);
    case CheckState =>
    case TakeNumber =>
    case Notify(_) =>
    case MarkAbandoned =>
    case TerminateAfterOverflow =>
    case SeeEof =>
    case CountDown =>
  }

  lemma ReaderStepKeepsStream(w: Which, x: Stream, frames: seq<Frame>, stopped: bool, e: ReaderEvent)
    requires StreamOk(x, frames, stopped)
    ensures EffectOk(w, x, frames, stopped, ReaderStep(w, x, stopped, e))
  {
    hide StreamOk, DataOf;
    if e.Notify? && e.accepted {
      if x.at.Numbered? {
        AcceptedFrameKeepsStream(w, x, frames, stopped);
      } else {
        assert ReaderStep(w, x, stopped, e) == Quiet(x) && frames + [] == frames;
      }
    } else {
      QuietStepKeepsStream(w, x, frames, stopped, e);
    }
  }

  lemma FramesOfQueued(queue: seq<Frame>, more: seq<Frame>, w: Which)
    requires |more| <= 1
    ensures FramesOf(queue + more, w) == FramesOf(queue, w) + if more != [] && more[0].stream == w then more else []
  {
    if more == [] {
      assert queue + more == queue;
    } else {
      assert (queue + more)[..|queue|] == queue;
    }
  }

  lemma UnfinishedAfter(streams: map<Which, Stream>, w: Which, x: Stream)
    requires w in streams && (streams[w].at.Finished? ==> x.at.Finished?)
    ensures var before, after := |Unfinished(streams)|, |Unfinished(streams[w := x])|;
            after == if !streams[w].at.Finished? && x.at.Finished? then before - 1 else before
  {
    if !streams[w].at.Finished? && x.at.Finished? {
      assert w in Unfinished(streams);
      assert Unfinished(streams[w := x]) == Unfinished(streams) - {w};
    } else {
      assert Unfinished(streams[w := x]) == Unfinished(streams);
    }
  }

  lemma ReaderKeepsInv(s: State, w: Which, re: ReaderEvent)
    requires Inv(s) && w in s.streams
    ensures Inv(Step(s, OfReader(w, re)))
  {
    hide ReaderStep, StreamOk, CoreOk, FramesOf, Unfinished;
    var stopped := s.core.facts.FramesStopped();
    var eff := ReaderStep(w, s.streams[w], stopped, re);
    var s' := Step(s, OfReader(w, re));
    ReaderStepKeepsStream(w, s.streams[w], FramesOf(s.queue, w), stopped, re);
    UnfinishedAfter(s.streams, w, eff.stream);
    var core := s.core.(facts := if eff.abandon then s.core.facts.(abandoned := true) else s.core.facts);
    AbandonKeepsCore(s.core, eff.abandon);
    BeginLadderKeepsCore(core);
    StoppedCanBeAbandoned(s.core.facts);
    assert s'.core.facts.FramesStopped() == (stopped || eff.abandon);
    if eff.finish {
      UnfinishedNonEmpty(s.streams, w);
    }
    forall v | v in s'.streams
      ensures StreamOk(s'.streams[v], FramesOf(s'.queue, v), s'.core.facts.FramesStopped())
    {
      FramesOfQueued(s.queue, eff.queued, v);
      if v == w {
        assert FramesOf(s'.queue, w) == FramesOf(s.queue, w) + eff.queued;
      } else {
        StreamOkWhenStopped(s.streams[v], FramesOf(s.queue, v), stopped);
        assert FramesOf(s.queue, v) + [] == FramesOf(s.queue, v);
      }
    }
    WhyStopped(s, w, re);
  }

  lemma UnfinishedNonEmpty(streams: map<Which, Stream>, w: Which)
    requires w in streams && !streams[w].at.Finished?
    ensures |Unfinished(streams)| > 0
  {
    assert w in Unfinished(streams);
  }

  lemma StoppedCanBeAbandoned(f: Facts)
    ensures f.(abandoned := true).FramesStopped() && f.(abandoned := true).settled == f.settled
  {
  }

  lemma StreamOkWhenStopped(x: Stream, frames: seq<Frame>, stopped: bool)
    requires StreamOk(x, frames, stopped)
    ensures StreamOk(x, frames, true)
  {
  }

  lemma AbandonKeepsCore(c: Core, abandon: bool)
    requires CoreOk(c)
    ensures CoreOk(c.(facts := if abandon then c.facts.(abandoned := true) else c.facts))
  {
  }

  lemma BeginLadderKeepsCore(c: Core)
    requires CoreOk(c)
    ensures CoreOk(BeginLadder(c)) && BeginLadder(c).reaper == c.reaper
    ensures BeginLadder(c).facts.disposed == c.facts.disposed && BeginLadder(c).facts.abandoned == c.facts.abandoned
    ensures BeginLadder(c).facts.FramesStopped() == c.facts.FramesStopped()
  {
  }

  /** A stream only falls short, or is abandoned, for one of the admitted reasons. */
  lemma WhyStopped(s: State, w: Which, re: ReaderEvent)
    requires Inv(s) && w in s.streams
    ensures var eff := ReaderStep(w, s.streams[w], s.core.facts.FramesStopped(), re);
            && (!eff.stream.whole && s.streams[w].whole && !eff.refused ==>
                  s.refused || s.core.facts.disposed || SettledEarly(s.core.reaper))
  {
    hide FramesOf;
    assert StreamOk(s.streams[w], FramesOf(s.queue, w), s.core.facts.FramesStopped());
    if Drained(s.core.reaper) && !s.streams[w].at.Finished? {
      UnfinishedNonEmpty(s.streams, w);
    }
  }

  lemma StepKeepsInv(s: State, e: Event)
    requires Inv(s)
    ensures Inv(Step(s, e))
  {
    hide ReaderStep, CoreStep, StreamOk, CoreOk, FramesOf, Unfinished;
    match e
    case OfReader(w, re) =>
      if w in s.streams { ReaderKeepsInv(s, w, re); }
    case OfCore(ce) =>
      CoreStepKeepsOk(s.core, s.readersLeft, ce);
      CoreStepMonotone(s.core, s.readersLeft, ce);
      forall w | w in s.streams
        ensures StreamOk(s.streams[w], FramesOf(s.queue, w), Step(s, e).core.facts.FramesStopped())
      {
        StreamOkWhenStopped(s.streams[w], FramesOf(s.queue, w), s.core.facts.FramesStopped());
      }
  }

  lemma {:induction false} RunKeepsInv(s: State, schedule: seq<Event>)
    requires Inv(s)
    ensures Inv(Run(s, schedule))
  {
    hide Inv, Step;
    if schedule != [] {
      var n := |schedule| - 1;
      RunKeepsInv(s, schedule[..n]);
      StepKeepsInv(Run(s, schedule[..n]), schedule[n]);
    }
  }

  // ------------------------------------------------------------------- over whole runs

  lemma {:induction false} RunConcat(s: State, a: seq<Event>, b: seq<Event>)
    ensures Run(s, a + b) == Run(Run(s, a), b)
  {
    hide Step;
    if b == [] {
      assert a + b == a;
    } else {
      var n := |b| - 1;
      assert (a + b)[..|a + b| - 1] == a + b[..n];
      RunConcat(s, a, b[..n]);
    }
  }

  /** Once some task has settled the facts, no continuation of the run replaces them. */
  lemma {:induction false} SettledOnce(s: State, schedule: seq<Event>)
    requires Inv(s) && s.core.facts.settled.Some?
    ensures Run(s, schedule).core.facts.settled == s.core.facts.settled
  {
    hide Inv, Step;
    if schedule != [] {
      var n := |schedule| - 1;
      var before := Run(s, schedule[..n]);
      SettledOnce(s, schedule[..n]);
      RunKeepsInv(s, schedule[..n]);
      SettledKept(before, schedule[n]);
    }
  }

  lemma SettledKept(s: State, e: Event)
    requires Inv(s) && s.core.facts.settled.Some?
    ensures Step(s, e).core.facts.settled == s.core.facts.settled
  {
    hide ReaderStep, StreamOk, CoreOk, FramesOf, Unfinished;
    match e
    case OfReader(_, _) =>
    case OfCore(ce) => CoreStepMonotone(s.core, s.readersLeft, ce);
  }

  /** Whatever the interleaving, a caller told of the exit can read the settled facts. */
  lemma WaitReturnsAfterSettling(streams: set<Which>, piped: set<Which>, schedule: seq<Event>)
    ensures var c := Run(Start(streams, piped), schedule).core;
            && (c.returned != {} ==> c.watch.Some?)
            && (c.watch.Some? ==> c.facts.settled == c.watch)
            && (c.facts.settled.Some? && c.reaper.Waiting? ==> c.facts.disposed)
            && (c.reaper.Done? || (c.facts.disposed && c.pendingSends == 0) ==> c.watch.Some?)
  {
    hide Run;
    StartInv(streams, piped);
    RunKeepsInv(Start(streams, piped), schedule);
  }

  /** Each stream's frames are numbered 0, 1, 2, ... and spell a prefix of what was read. */
  lemma FramesArePrefix(streams: set<Which>, piped: set<Which>, schedule: seq<Event>, w: Which)
    requires w in Run(Start(streams, piped), schedule).streams
    ensures var s := Run(Start(streams, piped), schedule);
            var frames := FramesOf(s.queue, w);
            Consecutive(frames) && DataOf(frames) <= s.streams[w].read
  {
    hide Run, CoreOk;
    StartInv(streams, piped);
    RunKeepsInv(Start(streams, piped), schedule);
    var s := Run(Start(streams, piped), schedule);
    assert StreamOk(s.streams[w], FramesOf(s.queue, w), s.core.facts.FramesStopped());
  }

  /**
   * With no refused frame, no dispose, and readers that finished before the facts were
   * settled, every byte read from every piped stream is queued before an exit is visible.
   */
  lemma AllQueuedBeforeExitVisible(streams: set<Which>, piped: set<Which>, schedule: seq<Event>, w: Which)
    requires var s := Run(Start(streams, piped), schedule);
             && w in s.streams && s.streams[w].piped
             && s.core.watch.Some? && Drained(s.core.reaper)
             && !s.refused && !s.core.facts.disposed
    ensures var s := Run(Start(streams, piped), schedule);
            DataOf(FramesOf(s.queue, w)) == s.streams[w].read && s.streams[w].at.Finished?
  {
    hide Run, CoreOk;
    StartInv(streams, piped);
    RunKeepsInv(Start(streams, piped), schedule);
    var s := Run(Start(streams, piped), schedule);
    assert StreamOk(s.streams[w], FramesOf(s.queue, w), s.core.facts.FramesStopped());
    if !s.streams[w].at.Finished? {
      UnfinishedNonEmpty(s.streams, w);
    }
  }

  /**
   * The ladder terminates at most once and kills at most once, a dispose kills at most once, and
   * the ladder kills only a group it has terminated before.
   */
  lemma SignalsSent(streams: set<Which>, piped: set<Which>, schedule: seq<Event>)
    ensures var c := Run(Start(streams, piped), schedule).core;
            && Count(c.signals, LadderTerm) <= 1 && Count(c.signals, LadderKill) <= 1 && Count(c.signals, DisposeKill) <= 1
            && TermFirst(c.signals)
            && (LadderTerm in c.signals ==> c.facts.terminating)
            && (DisposeKill in c.signals ==> c.facts.disposed)
            && (!c.facts.terminating && !c.facts.disposed ==> c.signals == [])
  {
    hide Run;
    StartInv(streams, piped);
    RunKeepsInv(Start(streams, piped), schedule);
    var c := Run(Start(streams, piped), schedule).core;
    SignalsCounted(c.signals);
  }

  lemma SignalsCounted(signals: seq<Signal>)
    ensures forall x :: x in signals <==> Count(signals, x) > 0
    ensures signals != [] ==> exists x :: Count(signals, x) > 0
    ensures TermFirst(signals) && LadderKill in signals ==> LadderTerm in signals
  {
    assert forall x :: x in signals <==> x in multiset(signals);
    if signals != [] { assert signals[0] in signals; }
    if TermFirst(signals) && LadderKill in signals {
      var i :| 0 <= i < |signals| && signals[i] == LadderKill;
      assert LadderTerm in signals[..i];
    }
  }

  // ------------------------------------------- frames that are queued after the settling

  /** How many frames a reader may still queue once frames have stopped. */
  function InHand(r: Reader): nat { if r.Admitted? || r.Numbered? then 1 else 0 }

  lemma ReaderStepAfterStop(w: Which, x: Stream, e: ReaderEvent)
    ensures var eff := ReaderStep(w, x, true, e);
            |eff.queued| + InHand(eff.stream.at) <= InHand(x.at)
  {
  }

  /** Frames stop for good: no step lets them start again. */
  lemma StoppedForGood(s: State, e: Event)
    requires Inv(s) && s.core.facts.FramesStopped()
    ensures Step(s, e).core.facts.FramesStopped()
  {
    hide ReaderStep, StreamOk, CoreOk, FramesOf, Unfinished;
    match e
    case OfReader(w, re) =>
      StoppedCanBeAbandoned(s.core.facts);
      BeginLadderStaysStopped(s.core);
      BeginLadderStaysStopped(s.core.(facts := s.core.facts.(abandoned := true)));
    case OfCore(ce) => CoreStepMonotone(s.core, s.readersLeft, ce);
  }

  lemma BeginLadderStaysStopped(c: Core)
    ensures BeginLadder(c).facts.FramesStopped() == c.facts.FramesStopped()
  {
  }

  /**
   * The check that stops frames and the queueing of a frame are separate sections. Once frames
   * are stopped, by a settling, a dispose or a refused frame, a stream may therefore still queue
   * the one frame its reader had in hand, and nothing more.
   */
  lemma {:induction false} LateFramesBounded(s: State, schedule: seq<Event>, w: Which)
    requires Inv(s) && s.core.facts.FramesStopped() && w in s.streams
    ensures w in Run(s, schedule).streams && Run(s, schedule).core.facts.FramesStopped()
    ensures |FramesOf(Run(s, schedule).queue, w)| + InHand(Run(s, schedule).streams[w].at)
              <= |FramesOf(s.queue, w)| + InHand(s.streams[w].at)
  {
    hide Inv, Step, FramesOf, InHand;
    if schedule != [] {
      var n := |schedule| - 1;
      LateFramesBounded(s, schedule[..n], w);
      RunKeepsInv(s, schedule[..n]);
      StoppedForGood(Run(s, schedule[..n]), schedule[n]);
      LateFrameStep(Run(s, schedule[..n]), schedule[n], w);
    }
  }

  lemma LateFrameStep(s: State, e: Event, w: Which)
    requires Inv(s) && s.core.facts.FramesStopped() && w in s.streams
    ensures w in Step(s, e).streams
    ensures |FramesOf(Step(s, e).queue, w)| + InHand(Step(s, e).streams[w].at)
              <= |FramesOf(s.queue, w)| + InHand(s.streams[w].at)
  {
    hide Inv, ReaderStep, CoreStep, FramesOf, InHand;
    if e.OfReader? && e.w in s.streams {
      var eff := ReaderStep(e.w, s.streams[e.w], true, e.re);
      QueuedByOwner(s, e.w, e.re);
      FramesOfQueued(s.queue, eff.queued, w);
      ReaderStepAfterStop(e.w, s.streams[e.w], e.re);
    }
  }

  /** Some continuation of the run queues another frame of the stream. */
  ghost predicate MoreFrames(s: State, w: Which) {
    exists more: seq<Event> :: |FramesOf(Run(s, more).queue, w)| > |FramesOf(s.queue, w)|
  }

  /**
   * Once frames are stopped, another one can arrive exactly when the reader of the stream is
   * past the check with a chunk in hand. Nothing arrives after an exit is seen if and only if no
   * reader is.
   */
  lemma LateFrameExactlyWhen(s: State, w: Which)
    requires Inv(s) && s.core.facts.FramesStopped() && w in s.streams
    ensures MoreFrames(s, w) <==> s.streams[w].at.Admitted? || s.streams[w].at.Numbered?
  {
    hide Inv, Step, FramesOf, Run;
    if s.streams[w].at.Admitted? || s.streams[w].at.Numbered? {
      FrameInHandIsQueued(s, w);
    }
    if MoreFrames(s, w) {
      var more: seq<Event> :| |FramesOf(Run(s, more).queue, w)| > |FramesOf(s.queue, w)|;
      LateFramesBounded(s, more, w);
    }
  }

  lemma FrameInHandIsQueued(s: State, w: Which)
    requires w in s.streams && (s.streams[w].at.Admitted? || s.streams[w].at.Numbered?)
    ensures MoreFrames(s, w)
  {
    hide FramesOf, Run;
    var number, notify := OfReader(w, TakeNumber), OfReader(w, Notify(true));
    RunTwo(s, number, notify);
    var t := Step(s, number);
    assert t.queue == s.queue + [] && t.streams[w].at.Numbered?;
    assert s.queue + [] == s.queue;
    var x := t.streams[w];
    assert Step(t, notify).queue == s.queue + [Frame(w, x.at.number, x.at.chunk)];
    OneMoreFrame(s.queue, Frame(w, x.at.number, x.at.chunk));
    assert |FramesOf(Run(s, [number, notify]).queue, w)| > |FramesOf(s.queue, w)|;
  }

  lemma OneMoreFrame(queue: seq<Frame>, f: Frame)
    ensures |FramesOf(queue + [f], f.stream)| == |FramesOf(queue, f.stream)| + 1
  {
    assert (queue + [f])[..|queue|] == queue;
  }

  lemma QueuedByOwner(s: State, v: Which, re: ReaderEvent)
    requires Inv(s) && v in s.streams
    ensures var eff := ReaderStep(v, s.streams[v], s.core.facts.FramesStopped(), re);
            |eff.queued| <= 1 && (eff.queued != [] ==> eff.queued[0].stream == v)
  {
    hide FramesOf;
    ReaderStepKeepsStream(v, s.streams[v], FramesOf(s.queue, v), s.core.facts.FramesStopped(), re);
  }

  /** Such a frame does occur: a disposal between the check and the queueing is enough. */
  lemma LateFrameOccurs()
    ensures exists schedule: seq<Event>, more: seq<Event> ::
      var s := Run(Start({Out}, {Out}), schedule);
      && s.core.watch.Some?
      && FramesOf(s.queue, Out) == [] && FramesOf(Run(s, more).queue, Out) != []
  {
    var read, check := OfReader(Out, ReadChunk([1])), OfReader(Out, CheckState);
    var dispose, send := OfCore(Dispose(true)), OfCore(DisposeSend);
    var number, notify := OfReader(Out, TakeNumber), OfReader(Out, Notify(true));
    var s0 := Start({Out}, {Out});
    var s2, s3 := AdmittedThenDisposed(s0.core), QueuedLate(s0.core);
    OneReadAdmitted();
    RunFour(s0, read, check, dispose, send);
    RunTwo(s2, number, notify);
    assert Run(s0, [read, check, dispose, send]) == s2 && Run(s2, [number, notify]) == s3;
    assert s2.queue == [] && s3.queue[..0] == [];
  }

  function AdmittedThenDisposed(c: Core): State {
    State(c.(facts := c.facts.Dispose(), signals := [DisposeKill], watch := Some(Unknown)),
          map[Out := Stream(true, Admitted([1]), 0, [1], true)], 1, [], false)
  }

  function QueuedLate(c: Core): State {
    AdmittedThenDisposed(c).(streams := map[Out := Stream(true, Reading, 1, [1], true)], queue := [Frame(Out, 0, [1])])
  }

  function OneStream(c: Core, at: Reader, counter: nat, read: seq<Byte>): State {
    State(c, map[Out := Stream(true, at, counter, read, true)], 1, [], false)
  }

  /** A reader step on a process with a single stream. */
  lemma StepOneStream(c: Core, at: Reader, counter: nat, read: seq<Byte>, e: ReaderEvent, to: Stream)
    requires ReaderStep(Out, Stream(true, at, counter, read, true), c.facts.FramesStopped(), e) == Quiet(to)
    ensures Step(OneStream(c, at, counter, read), OfReader(Out, e)) == OneStream(c, at, counter, read).(streams := map[Out := to])
  {
  }

  lemma OneReadAdmitted()
    ensures var s0 := Start({Out}, {Out});
            var s1 := Step(Step(s0, OfReader(Out, ReadChunk([1]))), OfReader(Out, CheckState));
            var s2 := Step(Step(s1, OfCore(Dispose(true))), OfCore(DisposeSend));
            var s3 := Step(Step(s2, OfReader(Out, TakeNumber)), OfReader(Out, Notify(true)));
            s2 == AdmittedThenDisposed(s0.core) && s3 == QueuedLate(s0.core)
  {
    var s0 := Start({Out}, {Out});
    var c0 := s0.core;
    assert |{Out}| == 1 && s0.streams == OneStream(c0, Reading, 0, []).streams;
    assert [] + [1] == [1];
    StepOneStream(c0, Reading, 0, [], ReadChunk([1]), Stream(true, Captured([1]), 0, [1], true));
    StepOneStream(c0, Captured([1]), 0, [1], CheckState, Stream(true, Admitted([1]), 0, [1], true));
    var s2 := AdmittedThenDisposed(c0);
    DisposedCore(c0);
    StepOneStream(s2.core, Admitted([1]), 0, [1], TakeNumber, Stream(true, Numbered([1], 0), 1, [1], true));
    NumberedIsQueued(s2.core);
  }

  lemma DisposedCore(c: Core)
    requires c == Core(Facts(None, None, false, false, false), None, Waiting, NoLadder, [], 0, {})
    ensures CoreStep(CoreStep(c, 1, Dispose(true)), 1, DisposeSend) == AdmittedThenDisposed(c).core
  {
  }

  lemma NumberedIsQueued(c: Core)
    ensures Step(OneStream(c, Numbered([1], 0), 1, [1]), OfReader(Out, Notify(true)))
              == OneStream(c, Reading, 1, [1]).(queue := [Frame(Out, 0, [1])])
  {
  }

  lemma RunTwo(s: State, a: Event, b: Event)
    ensures Run(s, [a, b]) == Step(Step(s, a), b)
  {
    hide Step;
    assert [a, b][..1] == [a] && [a][..0] == [];
    assert Run(s, [a]) == Step(Run(s, []), a);
  }

  lemma RunFour(s: State, a: Event, b: Event, c: Event, d: Event)
    ensures Run(s, [a, b, c, d]) == Step(Step(Step(Step(s, a), b), c), d)
  {
    hide Step, Run;
    assert [a, b, c, d] == [a, b] + [c, d];
    RunConcat(s, [a, b], [c, d]);
    RunTwo(s, a, b);
    RunTwo(Run(s, [a, b]), c, d);
  }
}
