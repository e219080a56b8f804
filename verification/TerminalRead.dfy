/**
 * The blocking terminal read of the agent against the two threads that feed it: one pushes
 * output into the window, one records the exit, and each then notifies the waiting reads.
 */
module TerminalRead {
  import opened Prelude
  import opened OutputWindow

  const WINDOW: nat := 0x10_0000

  type Id = nat

  datatype Outcome = Unknown | Known(status: int)

  /** Where one `read` call is; a registered call is one whose `notified` future is enabled. */
  datatype At =
    | LoopTop
    | Registered
    | ReadWindow(answer: Read)
    | ReadFacts(answer: Read, facts: Option<Outcome>)
    | Asleep
    | Replied(answer: Read, facts: Option<Outcome>, late: bool)

  datatype Reader = Reader(from: nat, at: At, woken: bool)

  /** The output thread: between its push and its notification, or not, or gone. */
  datatype Pusher = Idle | Pushed | Ended

  datatype Reaper = WaitingForChild | Recorded | Notified

  datatype State = State(stream: seq<Byte>, facts: Option<Outcome>, pusher: Pusher, reaper: Reaper, readers: map<Id, Reader>)

  const Init := State([], None, Idle, WaitingForChild, map[])

  datatype ReaderEvent = Enable | ReadOutput | ReadOutcome | Decide(pastDeadline: bool) | Wake | TimeOut

  datatype Event =
    | StartRead(id: Id, from: nat)
    | OfReader(id: Id, re: ReaderEvent)
    | Push(chunk: seq<Byte>)
    | NotifyPush
    | EndOfOutput
    | Reap(outcome: Outcome)
    | NotifyExit

  predicate Silent(r: Read) { r.bytes == [] && !r.lossy }

  /** One step of a read call; each access to shared state is a step of its own. */
  function ReaderStep(r: Reader, stream: seq<Byte>, facts: Option<Outcome>, e: ReaderEvent): Reader {
    match e
    case Enable => if r.at.LoopTop? then r.(at := Registered, woken := false) else r
    case ReadOutput => if r.at.Registered? then r.(at := ReadWindow(ReadOf(stream, WINDOW, r.from))) else r
    case ReadOutcome => if r.at.ReadWindow? then r.(at := ReadFacts(r.at.answer, facts)) else r
    case Decide(pastDeadline) =>
      if !r.at.ReadFacts? then r
      else if !Silent(r.at.answer) || r.at.facts.Some? || pastDeadline then
        r.(at := Replied(r.at.answer, r.at.facts, pastDeadline))
      else r.(at := Asleep)
    case Wake => if r.at.Asleep? && r.woken then r.(at := LoopTop) else r
    case TimeOut => if r.at.Asleep? then r.(at := LoopTop) else r
  }

  /** Notifying reaches exactly the calls registered at that moment; nothing is stored. */
  function WakeOne(r: Reader): Reader {
    if r.at.LoopTop? || r.at.Replied? then r else r.(woken := true)
  }

  function WakeAll(readers: map<Id, Reader>): map<Id, Reader> {
    map id | id in readers :: WakeOne(readers[id])
  }

  function Step(s: State, e: Event): State {
    match e
    case StartRead(id, from) =>
      if id in s.readers then s else s.(readers := s.readers[id := Reader(from, LoopTop, false)])
    case OfReader(id, re) =>
      if id in s.readers then s.(readers := s.readers[id := ReaderStep(s.readers[id], s.stream, s.facts, re)]) else s
    case Push(chunk) =>
      if s.pusher.Idle? && chunk != [] then s.(stream := s.stream + chunk, pusher := Pushed) else s
    case NotifyPush =>
      if s.pusher.Pushed? then s.(pusher := Idle, readers := WakeAll(s.readers)) else s
    case EndOfOutput =>
      if s.pusher.Idle? then s.(pusher := Ended) else s
    case Reap(outcome) =>
      if s.reaper.WaitingForChild? then s.(facts := Some(outcome), reaper := Recorded) else s
    case NotifyExit =>
      if s.reaper.Recorded? then s.(reaper := Notified, readers := WakeAll(s.readers)) else s
  }

  function Run(s: State, schedule: seq<Event>): State {
    if schedule == [] then s else Step(Run(s, schedule[..|schedule| - 1]), schedule[|schedule| - 1])
  }

  // ------------------------------------------------------------------ what is invariant

  /** The answer is what the window said when the stream ended at the answer's own offset. */
  predicate Truthful(answer: Read, stream: seq<Byte>, from: nat) {
    answer.nextOffset <= |stream| && answer == ReadOf(stream[..answer.nextOffset], WINDOW, from)
  }

  /** A call that has seen silence and was not woken since is owed a notification for any news. */
  ghost predicate OwedOutput(r: Reader, stream: seq<Byte>, pusher: Pusher) {
    !r.woken && !Silent(ReadOf(stream, WINDOW, r.from)) ==> pusher.Pushed?
  }

  ghost predicate OwedExit(r: Reader, facts: Option<Outcome>, reaper: Reaper) {
    !r.woken && facts.Some? ==> reaper.Recorded?
  }

  ghost predicate ReaderOk(r: Reader, stream: seq<Byte>, facts: Option<Outcome>, pusher: Pusher, reaper: Reaper) {
    match r.at
    case LoopTop => true
    case Registered => true
    case ReadWindow(answer) =>
      Truthful(answer, stream, r.from) && (Silent(answer) ==> OwedOutput(r, stream, pusher))
    case ReadFacts(answer, seen) =>
      && Truthful(answer, stream, r.from) && (Silent(answer) ==> OwedOutput(r, stream, pusher))
      && (seen.Some? ==> seen == facts) && (seen.None? ==> OwedExit(r, facts, reaper))
    case Asleep => OwedOutput(r, stream, pusher) && OwedExit(r, facts, reaper)
    case Replied(answer, seen, late) =>
      && Truthful(answer, stream, r.from) && (seen.Some? ==> seen == facts)
      && (Silent(answer) && seen.None? ==> late)
  }

  ghost predicate Inv(s: State) {
    && (s.facts.None? <==> s.reaper.WaitingForChild?)
    && forall id :: id in s.readers ==> ReaderOk(s.readers[id], s.stream, s.facts, s.pusher, s.reaper)
  }

  lemma ReaderStepKeepsOk(r: Reader, stream: seq<Byte>, facts: Option<Outcome>, pusher: Pusher, reaper: Reaper, e: ReaderEvent)
    requires ReaderOk(r, stream, facts, pusher, reaper)
    ensures ReaderOk(ReaderStep(r, stream, facts, e), stream, facts, pusher, reaper)
  {
    hide ReadOf;
    if e.ReadOutput? {
      AnswerIsTruthful(stream, r.from);
    }
  }

  lemma AnswerIsTruthful(stream: seq<Byte>, from: nat)
    ensures Truthful(ReadOf(stream, WINDOW, from), stream, from)
  {
    assert stream[..|stream|] == stream;
  }

  lemma PushKeepsReader(r: Reader, stream: seq<Byte>, chunk: seq<Byte>, facts: Option<Outcome>, pusher: Pusher, reaper: Reaper)
    requires ReaderOk(r, stream, facts, pusher, reaper)
    ensures ReaderOk(r, stream + chunk, facts, Pushed, reaper)
  {
    hide ReadOf;
    if r.at.ReadWindow? || r.at.ReadFacts? || r.at.Replied? {
      var n := r.at.answer.nextOffset;
      assert (stream + chunk)[..n] == stream[..n];
    }
  }

  /** A notification discharges every debt at once, so its sender may move on. */
  lemma WakeKeepsReader(r: Reader, stream: seq<Byte>, facts: Option<Outcome>, pusher: Pusher, reaper: Reaper, pusher': Pusher, reaper': Reaper)
    requires ReaderOk(r, stream, facts, pusher, reaper)
    ensures ReaderOk(WakeOne(r), stream, facts, pusher', reaper')
  {
  }

  lemma ReapKeepsReader(r: Reader, stream: seq<Byte>, pusher: Pusher, outcome: Outcome)
    requires ReaderOk(r, stream, None, pusher, WaitingForChild)
    ensures ReaderOk(r, stream, Some(outcome), pusher, Recorded)
  {
  }

  lemma StepKeepsInv(s: State, e: Event)
    requires Inv(s)
    ensures Inv(Step(s, e))
  {
    hide ReaderOk, ReaderStep, WakeOne;
    var s' := Step(s, e);
    forall id | id in s'.readers
      ensures ReaderOk(s'.readers[id], s'.stream, s'.facts, s'.pusher, s'.reaper)
    {
      if id !in s.readers {
        NewReaderOk(e.from, s.stream, s.facts, s.pusher, s.reaper);
      } else {
        var r := s.readers[id];
        match e
        case StartRead(_, _) =>
        case OfReader(x, re) =>
          if x == id { ReaderStepKeepsOk(r, s.stream, s.facts, s.pusher, s.reaper, re); }
        case Push(chunk) =>
          PushKeepsReader(r, s.stream, chunk, s.facts, s.pusher, s.reaper);
        case NotifyPush =>
          WakeKeepsReader(r, s.stream, s.facts, s.pusher, s.reaper, s'.pusher, s'.reaper);
        case EndOfOutput =>
          EndKeepsReader(r, s.stream, s.facts, s.pusher, s.reaper);
        case Reap(outcome) =>
          if s.reaper.WaitingForChild? { ReapKeepsReader(r, s.stream, s.pusher, outcome); }
        case NotifyExit =>
          WakeKeepsReader(r, s.stream, s.facts, s.pusher, s.reaper, s'.pusher, s'.reaper);
      }
    }
  }

  lemma NewReaderOk(from: nat, stream: seq<Byte>, facts: Option<Outcome>, pusher: Pusher, reaper: Reaper)
    ensures ReaderOk(Reader(from, LoopTop, false), stream, facts, pusher, reaper)
  {
  }

  lemma EndKeepsReader(r: Reader, stream: seq<Byte>, facts: Option<Outcome>, pusher: Pusher, reaper: Reaper)
    requires ReaderOk(r, stream, facts, pusher, reaper)
    ensures pusher.Idle? ==> ReaderOk(r, stream, facts, Ended, reaper)
  {
  }

  lemma {:induction false} RunKeepsInv(s: State, schedule: seq<Event>)
    requires Inv(s)
    ensures Inv(Run(s, schedule))
  {
    hide Inv, Step;
    if schedule != [] {
      var n := |schedule| - 1;
      RunKeepsInv(s, schedule[..n]);
      StepKeepsInv(Run(s, schedule[..n]), schedule[n]);
    }
  }

  /**
   * No lost wakeup. In any interleaving: a read that sleeps unwoken, while no thread is
   * between its update and its notification, has nothing to report.
   */
  lemma NoLostWakeup(schedule: seq<Event>, id: Id)
    requires var s := Run(Init, schedule);
             && id in s.readers && s.readers[id].at.Asleep? && !s.readers[id].woken
             && !s.pusher.Pushed? && !s.reaper.Recorded?
    ensures var s := Run(Init, schedule);
            s.facts.None? && Silent(ReadOf(s.stream, WINDOW, s.readers[id].from))
  {
    hide Run, ReadOf;
    RunKeepsInv(Init, schedule);
  }

  /**
   * Every reply is what the window held at the reply's own offset, carries only facts that
   * stand, and is empty-handed only after the deadline.
   */
  lemma RepliesAreTrue(schedule: seq<Event>, id: Id)
    requires id in Run(Init, schedule).readers && Run(Init, schedule).readers[id].at.Replied?
    ensures var s := Run(Init, schedule);
            var reply := s.readers[id].at;
            && reply.answer.nextOffset <= |s.stream|
            && reply.answer == ReadOf(s.stream[..reply.answer.nextOffset], WINDOW, s.readers[id].from)
            && (reply.facts.Some? ==> reply.facts == s.facts)
            && (Silent(reply.answer) && reply.facts.None? ==> reply.late)
  {
    hide Run, ReadOf;
    RunKeepsInv(Init, schedule);
  }

  // ------------------------------------------------------------- every read is answered

  /** What a read that looks now comes to: the reply that is due, or sleep when there is none. */
  function Looked(r: Reader, stream: seq<Byte>, facts: Option<Outcome>, late: bool): Reader {
    var answer := ReadOf(stream, WINDOW, r.from);
    if answer.bytes != [] || answer.lossy || facts.Some? || late then Reader(r.from, Replied(answer, facts, late), false)
    else Reader(r.from, Asleep, false)
  }

  /** The steps by which a read looks once. */
  function Look(id: Id, late: bool): seq<Event> {
    [OfReader(id, Enable), OfReader(id, ReadOutput), OfReader(id, ReadOutcome), OfReader(id, Decide(late))]
  }

  lemma LookingSteps(r: Reader, stream: seq<Byte>, facts: Option<Outcome>, late: bool)
    requires r.at.LoopTop?
    ensures var r1 := ReaderStep(r, stream, facts, Enable);
            var r2 := ReaderStep(r1, stream, facts, ReadOutput);
            var r3 := ReaderStep(r2, stream, facts, ReadOutcome);
            ReaderStep(r3, stream, facts, Decide(late)) == Looked(r, stream, facts, late)
  {
    hide ReadOf;
  }

  /** An undisturbed look is answered with what the window and the exit record hold, if there is anything. */
  lemma ReadLooks(s: State, id: Id, late: bool)
    requires id in s.readers && s.readers[id].at.LoopTop?
    ensures Run(s, Look(id, late)) == s.(readers := s.readers[id := Looked(s.readers[id], s.stream, s.facts, late)])
  {
    hide ReaderStep, Looked, ReadOf;
    var look, r0 := Look(id, late), s.readers[id];
    RunFour(s, look[0], look[1], look[2], look[3]);
    LookingSteps(r0, s.stream, s.facts, late);
    var r1 := ReaderStep(r0, s.stream, s.facts, Enable);
    var r2 := ReaderStep(r1, s.stream, s.facts, ReadOutput);
    var r3 := ReaderStep(r2, s.stream, s.facts, ReadOutcome);
    hide Run;
    StepOfReader(s, id, r0, Enable);
    StepOfReader(s, id, r1, ReadOutput);
    StepOfReader(s, id, r2, ReadOutcome);
    StepOfReader(s, id, r3, Decide(late));
    assert s.readers[id := r0] == s.readers;
  }

  lemma StepOfReader(s: State, id: Id, r: Reader, e: ReaderEvent)
    requires id in s.readers
    ensures Step(s.(readers := s.readers[id := r]), OfReader(id, e))
         == s.(readers := s.readers[id := ReaderStep(r, s.stream, s.facts, e)])
  {
    hide ReaderStep;
    var to := ReaderStep(r, s.stream, s.facts, e);
    assert s.readers[id := r][id := to] == s.readers[id := to];
  }

  lemma {:induction false} RunConcat(s: State, a: seq<Event>, b: seq<Event>)
    ensures Run(s, a + b) == Run(Run(s, a), b)
    decreases |b|
  {
    hide Step;
    if b == [] {
      assert a + b == a;
    } else {
      var n := |b| - 1;
      assert (a + b)[..|a + b| - 1] == a + b[..n];
      RunConcat(s, a, b[..n]);
    }
  }

  lemma RunFour(s: State, a: Event, b: Event, c: Event, d: Event)
    ensures Run(s, [a, b, c, d]) == Step(Step(Step(Step(s, a), b), c), d)
  {
    hide Step;
    assert [a, b, c, d][..3] == [a, b, c] && [a, b, c][..2] == [a, b] && [a, b][..1] == [a] && [a][..0] == [];
    assert Run(s, []) == s && Run(s, [a]) == Step(s, a) && Run(s, [a, b]) == Step(Step(s, a), b);
  }

  lemma RunThree(s: State, a: Event, b: Event, c: Event)
    ensures Run(s, [a, b, c]) == Step(Step(Step(s, a), b), c)
  {
    hide Step;
    assert [a, b, c][..2] == [a, b] && [a, b][..1] == [a] && [a][..0] == [];
    assert Run(s, []) == s && Run(s, [a]) == Step(s, a);
  }

  /** What the window or the exit record holds anew, and who is told. */
  predicate Announces(news: Event, notice: Event) {
    (news.Push? && notice.NotifyPush?) || (news.Reap? && notice.NotifyExit?)
  }

  predicate CanHappen(s: State, news: Event) {
    (news.Push? && s.pusher.Idle? && news.chunk != []) || (news.Reap? && s.reaper.WaitingForChild?)
  }

  /** A sleeping read is woken by new output or by the exit, looks, and replies with what there is. */
  lemma SleeperIsAnswered(s: State, id: Id, news: Event, notice: Event)
    requires id in s.readers && s.readers[id].at.Asleep? && Announces(news, notice) && CanHappen(s, news)
    ensures var t := Run(s, [news, notice, OfReader(id, Wake)] + Look(id, false));
      && t.stream == (if news.Push? then s.stream + news.chunk else s.stream)
      && t.facts == (if news.Reap? then Some(news.outcome) else s.facts)
      && id in t.readers && t.readers[id] == Looked(s.readers[id], t.stream, t.facts, false)
  {
    hide Run, ReadOf;
    RunConcat(s, [news, notice, OfReader(id, Wake)], Look(id, false));
    RunThree(s, news, notice, OfReader(id, Wake));
    var m := Run(s, [news, notice, OfReader(id, Wake)]);
    NewsWakes(s, id, news, notice);
    ReadLooks(m, id, false);
  }

  lemma NewsWakes(s: State, id: Id, news: Event, notice: Event)
    requires id in s.readers && s.readers[id].at.Asleep? && Announces(news, notice) && CanHappen(s, news)
    ensures var t := Step(Step(Step(s, news), notice), OfReader(id, Wake));
      && t.stream == (if news.Push? then s.stream + news.chunk else s.stream)
      && t.facts == (if news.Reap? then Some(news.outcome) else s.facts)
      && id in t.readers && t.readers[id].at.LoopTop? && t.readers[id].from == s.readers[id].from
  {
  }

  /** A read that sleeps past its deadline looks once more and replies, whatever there is. */
  lemma LateReadReplies(s: State, id: Id)
    requires id in s.readers && s.readers[id].at.Asleep?
    ensures var t := Run(s, [OfReader(id, TimeOut)] + Look(id, true));
            id in t.readers && t.readers[id] == Looked(s.readers[id], s.stream, s.facts, true) && t.readers[id].at.Replied?
  {
    hide Run, ReadOf;
    RunConcat(s, [OfReader(id, TimeOut)], Look(id, true));
    OneEvent(s, OfReader(id, TimeOut));
    ReadLooks(Step(s, OfReader(id, TimeOut)), id, true);
  }

  lemma OneEvent(s: State, e: Event)
    ensures Run(s, [e]) == Step(s, e)
  {
    hide Step;
    assert [e][..0] == [];
  }

  /** The calls that were made are the ones there are, each reading from where it asked to. */
  lemma {:induction false} ReadsAreAsAsked(schedule: seq<Event>, id: Id)
    ensures var s := Run(Init, schedule);
      && (id in s.readers <==> exists from :: StartRead(id, from) in schedule)
      && (id in s.readers ==> StartRead(id, s.readers[id].from) in schedule)
  {
    if schedule != [] {
      hide Step;
      var n := |schedule| - 1;
      ReadsAreAsAsked(schedule[..n], id);
      StepStartsReads(Run(Init, schedule[..n]), schedule[n], id);
      assert schedule == schedule[..n] + [schedule[n]];
      assert forall e :: e in schedule <==> e in schedule[..n] || e == schedule[n];
    }
  }

  lemma StepStartsReads(s: State, e: Event, id: Id)
    ensures var t := Step(s, e);
      && (id in t.readers <==> id in s.readers || (e.StartRead? && e.id == id))
      && (id in s.readers ==> t.readers[id].from == s.readers[id].from)
      && (id !in s.readers && id in t.readers ==> e == StartRead(id, t.readers[id].from) && t.readers[id].at.LoopTop?)
  {
    hide ReadOf;
  }
}
