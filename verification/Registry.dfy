/** The terminal registry itself: handlers that update one table of terminals in place. */
module Registry {
  import opened Prelude
  import opened RegistryState
  import opened RegistryEffects
  import RegistryRuns
  import TerminalLines
  import OutputWindow

  datatype Refusal = NotOpen | AlreadyExited

  const DEFAULT_READ_LINES: nat := 200
  const MAX_READ_LINES: nat := 2000

  datatype TerminalRead = TerminalRead(offset: nat, text: seq<Byte>, truncated: bool)

  /** How many lines a read is for: at least one, at most the maximum. */
  function LinesAsked(lines: Option<int>): (n: nat)
    ensures n == match lines
                 case None => 200
                 case Some(asked) => if asked < 1 then 1 else if asked > 2000 then 2000 else asked
  {
    Min(Max(if lines.Some? then lines.value else DEFAULT_READ_LINES, 1), MAX_READ_LINES)
  }

  /** Where a read of a stream starts: at its offset within the stream, else at what is retained. */
  function Asked(stream: seq<Byte>, offset: Option<nat>): (at: nat)
    ensures at <= |stream|
  {
    if offset.Some? then Min(offset.value, |stream|) else |stream| - |OutputWindow.Tail(stream, BUFFER_BYTES)|
  }

  /** What is due from there: the stream, or all that is retained of it. */
  function Due(stream: seq<Byte>, offset: Option<nat>): seq<Byte> {
    var kept := OutputWindow.Tail(stream, BUFFER_BYTES);
    if Asked(stream, offset) <= |stream| - |kept| then kept else stream[Asked(stream, offset)..]
  }

  lemma DueIsSeen(e: Entry, offset: Option<nat>)
    requires Windowed(e)
    ensures TextFrom(e, if offset.Some? then offset.value else e.dropped)
         == (Due(e.stream, offset), |Due(e.stream, offset)| < |e.stream| - Asked(e.stream, offset))
  {
  }

  /** The retained tail after one more chunk, in whichever of the two ways applies. */
  method Append(e: Entry, chunk: seq<Byte>) returns (r: Entry)
    requires Windowed(e)
    ensures r == Appended(e, chunk) && Windowed(r)
  {
    hide OutputWindow.Tail;
    var bytes := e.bytes + |chunk|;
    var stream := e.stream + chunk;
    if |chunk| >= BUFFER_BYTES {
      var buffer := chunk[|chunk| - BUFFER_BYTES..];
      TailOfLongChunk(e.stream, chunk);
      return e.(stream := stream, buffer := buffer, bytes := bytes, dropped := bytes - |buffer|);
    }
    var grown := if |e.buffer| == 0 then chunk else e.buffer + chunk;
    assert grown == e.buffer + chunk;
    var overflow := |grown| - BUFFER_BYTES;
    var buffer := if overflow > 0 then grown[overflow..] else grown;
    TailByOverflow(grown);
    OutputWindow.TailOfTail(e.stream, chunk, BUFFER_BYTES);
    return e.(stream := stream, buffer := buffer, bytes := bytes, dropped := bytes - |buffer|);
  }

  lemma TailOfLongChunk(stream: seq<Byte>, chunk: seq<Byte>)
    requires |chunk| >= BUFFER_BYTES
    ensures OutputWindow.Tail(stream + chunk, BUFFER_BYTES) == chunk[|chunk| - BUFFER_BYTES..]
  {
  }

  lemma TailByOverflow(grown: seq<Byte>)
    ensures OutputWindow.Tail(grown, BUFFER_BYTES)
         == if |grown| > BUFFER_BYTES then grown[|grown| - BUFFER_BYTES..] else grown
  {
  }

  lemma PlusHas(sinks: seq<Sink>, k: Sink)
    ensures k in Plus(sinks, k)
  {
  }

  class TerminalRegistry {
    /** Every terminal opened so far, and the ids that are still found. */
    var objects: map<Id, Entry>
    var table: set<Id>
    var nextOrdinal: nat
    var nextWaiter: nat
    var asked: map<nat, Id>
    const graceMs: int
    /** Deferred deliveries, what sinks have received, what waits were told, what was killed. */
    var queue: seq<Delivery>
    var sinks: map<Sink, Log>
    var answers: seq<Answer>
    var terminated: seq<Id>

    ghost function S(): State
      reads this
    {
      State(objects, table, nextOrdinal, nextWaiter, asked, queue, sinks, answers, terminated)
    }

    ghost predicate Valid()
      reads this
    {
      Inv(S())
    }

    constructor (graceMs: int)
      ensures S() == Init && Valid() && this.graceMs == graceMs
    {
      objects, table, nextOrdinal, nextWaiter, asked := map[], {}, 0, 0, map[];
      this.graceMs := graceMs;
      queue, sinks, answers, terminated := [], map[], [], [];
      new;
      RegistryRuns.InitInv();
    }

    /** Wake every waiter of a terminal; each looks again and leaves if it is done. */
    method Notify(id: Id)
      requires id in objects
      modifies this`objects, this`answers
      ensures S() == Noted(old(S()), id, old(objects[id]))
    {
      hide Verdict;
      var e := objects[id];
      var waiters, kept, told := e.waiters, [], [];
      for i := 0 to |waiters|
        invariant kept == StillWaiting(e, waiters[..i]) && told == Told(e, waiters[..i])
      {
        assert waiters[..i + 1][..i] == waiters[..i];
        var verdict := Verdict(e, waiters[i]);
        if verdict.Some? {
          told := told + [verdict.value];
        } else {
          kept := kept + [waiters[i]];
        }
      }
      assert waiters[..|waiters|] == waiters;
      objects := objects[id := e.(waiters := kept)];
      answers := answers + told;
    }

    /** A terminal is open: its shell has been spawned. */
    method Open() returns (id: Id)
      requires Valid()
      modifies this`objects, this`table, this`nextOrdinal
      ensures Valid() && S() == Step(old(S()), graceMs, RegistryState.Open)
      ensures id !in old(objects) && table == old(table) + {id} && id in objects && objects == old(objects)[id := objects[id]]
      ensures var e := objects[id];
              e.state.Running? && e.stream == [] && e.attaches == [] && e.waiters == [] && !e.timer && !e.settled
    {
      hide Inv;
      RegistryRuns.StepKeepsInv(S(), graceMs, RegistryState.Open);
      RegistryRuns.TableIsBacked(S());
      id := nextOrdinal + 1;
      nextOrdinal := id;
      objects := objects[id := Fresh];
      table := table + {id};
    }

    /** The process wrote: buffer it, wake the waiters, and queue it for every sink. */
    method OnData(id: Id, chunk: seq<Byte>)
      requires Valid() && id in objects
      modifies this`objects, this`answers, this`queue
      ensures Valid() && S() == Step(old(S()), graceMs, Data(id, chunk)) && OthersKept(old(S()), S(), id)
      ensures var e, was := objects[id], old(objects[id]);
              && e.stream == was.stream + chunk && e.state == was.state && e.attaches == was.attaches
              && e.timer == was.timer && e.settled == was.settled
      ensures queue == old(queue) + ToEach(objects[id].attaches, chunk)
    {
      hide Inv, Windowed, StillWaiting, Told, Appended, OthersKept;
      DataLeaves(S(), id, chunk);
      RegistryRuns.StepKeepsInv(S(), graceMs, Data(id, chunk));
      RegistryRuns.EntryIsWindowed(S(), id);
      var e := Append(objects[id], chunk);
      objects := objects[id := e];
      Notify(id);
      RegistryRuns.NotifiedKeepsTheRest(e);
      var to := objects[id].attaches;
      for i := 0 to |to|
        invariant S() == AfterData(old(S()), id, chunk).(queue := old(queue) + ToEach(to[..i], chunk))
      {
        assert ToEach(to[..i + 1], chunk) == ToEach(to[..i], chunk) + [Delivery(to[i], chunk)];
        queue := queue + [Delivery(to[i], chunk)];
      }
      assert to[..|to|] == to;
    }

    /** The process is gone: its waiters hear of it, and so does an unwatched terminal. */
    method Settle(id: Id)
      requires Valid() && id in objects && !objects[id].settled
      modifies this
      ensures Valid() && S() == Step(old(S()), graceMs, Done(id)) && OthersKept(old(S()), S(), id) && NothingSent(old(S()), S())
      ensures var e, was := objects[id], old(objects[id]);
              e.state.Exited? && e.settled && e.waiters == [] && e.attaches == was.attaches && SameOutput(was, e)
      ensures id in table <==> id in old(table) && objects[id].attaches != []
      ensures terminated == old(terminated) + (if id in old(table) && id !in table then [id] else [])
    {
      hide Inv, AfterKill, Told, StillWaiting, OthersKept, NothingSent, SameOutput;
      DoneLeaves(S(), id);
      RegistryRuns.StepKeepsInv(S(), graceMs, Done(id));
      RegistryRuns.TableIsBacked(S());
      var e := objects[id].(state := Exited, settled := true);
      objects := objects[id := e];
      Notify(id);
      RegistryRuns.NotedTwice(old(S()), id, e);
      RegistryRuns.NotifiedKeepsTheRest(e);
      if |objects[id].attaches| == 0 {
        var _ := Release(id);
      }
    }

    /** The synchronous part of a kill. */
    method Release(id: Id) returns (found: bool)
      requires table <= objects.Keys
      modifies this
      ensures S() == AfterKill(old(S()), id) && (found <==> id in old(table))
    {
      if id !in table {
        return false;
      }
      var e := objects[id];
      e := e.(timer := false);
      table := table - {id};
      e := e.(attaches := []);
      e := e.(state := Exited);
      objects := objects[id := e];
      Notify(id);
      terminated := terminated + [id];
      return true;
    }

    method Kill(id: Id) returns (found: bool)
      requires Valid()
      modifies this
      ensures Valid() && S() == Step(old(S()), graceMs, RegistryState.Kill(id))
      ensures id !in table && (found <==> id in old(table)) && (found ==> terminated == old(terminated) + [id])
      ensures if found then OthersKept(old(S()), S(), id) && NothingSent(old(S()), S()) else S() == old(S())
      ensures found ==>
        && id in objects && id in old(objects) && SameOutput(old(objects[id]), objects[id])
        && var e := objects[id]; e.state.Exited? && e.attaches == [] && e.waiters == [] && !e.timer
    {
      hide Inv, StillWaiting, Told, OthersKept, NothingSent, SameOutput;
      RegistryRuns.TableIsBacked(S());
      if id in table { KillLeaves(S(), id); }
      RegistryRuns.StepKeepsInv(S(), graceMs, RegistryState.Kill(id));
      found := Release(id);
    }

    /** A sink starts watching: the valve closes, and the retained output is replayed at once. */
    method Attach(id: Id, sink: Sink) returns (r: Result<Entry, Refusal>)
      requires Valid()
      modifies this
      ensures Valid() && S() == Step(old(S()), graceMs, RegistryState.Attach(id, sink))
      ensures r.Err? ==> S() == old(S())
      ensures r == Err(NotOpen) <==> id !in table
      ensures r == Err(AlreadyExited) <==> id in table && id in objects && objects[id].state.Exited?
      ensures r.Ok? ==> id in objects && r.value == objects[id] && Admitted(old(S()), S(), id, sink)
    {
      hide Inv, Plus, Admitted;
      if id in table && id in objects && !objects[id].state.Exited? { AttachLeaves(S(), id, sink); }
      RegistryRuns.StepKeepsInv(S(), graceMs, RegistryState.Attach(id, sink));
      RegistryRuns.TableIsBacked(S());
      if id !in table {
        return Err(NotOpen);
      }
      var e := objects[id];
      if e.state.Exited? {
        return Err(AlreadyExited);
      }
      if e.timer {
        e := e.(timer := false);
      }
      if e.state.Detached? {
        e := e.(state := Running);
      }
      e := e.(attaches := Plus(e.attaches, sink));
      objects := objects[id := e];
      var log := if sink in sinks then sinks[sink] else Log([], 0, id, e.dropped);
      assert [] + e.buffer == e.buffer;
      assert |e.buffer| == 0 ==> log.received + e.buffer == log.received;
      if |e.buffer| > 0 {
        log := log.(received := log.received + e.buffer);
      }
      sinks := sinks[sink := log.(joins := log.joins + 1)];
      assert S() == AfterAttach(old(S()), id, sink);
      assert sink in e.attaches by { PlusHas(old(objects[id]).attaches, sink); }
      return Ok(e);
    }

    /** A sink stops watching; the last one leaves the terminal to its valve, or releases it. */
    method Detach(id: Id, sink: Sink)
      requires Valid()
      modifies this
      ensures Valid() && S() == Step(old(S()), graceMs, RegistryState.Detach(id, sink))
      ensures id !in old(table) ==> S() == old(S())
      ensures id in old(table) ==>
        && id in old(objects) && id in objects && OthersKept(old(S()), S(), id) && NothingSent(old(S()), S())
        && (id in table <==> !old(objects[id]).state.Exited? || exists x :: x in old(objects[id]).attaches && x != sink)
      ensures id in table ==>
        && id in old(objects) && id in objects && (forall x :: x in objects[id].attaches <==> x in old(objects[id]).attaches && x != sink)
        && objects[id].(state := Running, timer := false, attaches := [])
             == old(objects[id]).(state := Running, timer := false, attaches := [])
      ensures id in table && objects[id].attaches != [] ==>
        objects[id].state == old(objects[id]).state && objects[id].timer == old(objects[id]).timer
      ensures id in table && objects[id].attaches == [] ==>
        objects[id].state.Detached? && (objects[id].timer <==> old(objects[id]).timer || graceMs > 0)
      ensures id in old(table) && id !in table ==> objects[id].state.Exited? && terminated == old(terminated) + [id]
    {
      hide Inv, AfterKill, Minus, OthersKept, NothingSent;
      RegistryRuns.StepKeepsInv(S(), graceMs, RegistryState.Detach(id, sink));
      RegistryRuns.TableIsBacked(S());
      if id in table { DetachLeaves(S(), graceMs, id, sink); }
      RegistryRuns.TableIsBacked(S());
      if id !in table {
        return;
      }
      var e := objects[id].(attaches := Minus(objects[id].attaches, sink));
      objects := objects[id := e];
      if |e.attaches| > 0 {
        return;
      }
      if e.state.Exited? {
        var _ := Release(id);
        return;
      }
      e := e.(state := Detached);
      if !(e.timer || graceMs <= 0) {
        e := e.(timer := true);
      }
      objects := objects[id := e];
      assert objects == old(objects)[id := e];
    }

    /** The valve of a terminal nobody came back to. */
    method TimerFires(id: Id)
      requires Valid() && id in objects && objects[id].timer
      modifies this
      ensures Valid() && S() == Step(old(S()), graceMs, RegistryState.TimerFires(id))
      ensures id !in table && terminated == old(terminated) + [id] && OthersKept(old(S()), S(), id) && NothingSent(old(S()), S())
      ensures var e := objects[id];
              e.state.Exited? && e.attaches == [] && e.waiters == [] && !e.timer && SameOutput(old(objects[id]), e)
    {
      hide Windowed, Patient, SinksOk, Verdict, StillWaiting, OthersKept, NothingSent, SameOutput;
      RegistryRuns.StepKeepsInv(S(), graceMs, RegistryState.TimerFires(id));
      assert EntryOk(objects[id], id in table);
      TimerLeaves(S(), id);
      objects := objects[id := objects[id].(timer := false)];
      var _ := Release(id);
    }

    /** Wait for a match: the first look is taken at once. */
    method Wait(id: Id, start: int, test: seq<Byte> -> bool, aborted: bool) returns (r: Result<Option<Answer>, Refusal>)
      requires Valid()
      modifies this
      ensures Valid() && S() == Step(old(S()), graceMs, RegistryState.Wait(id, start, test, aborted))
      ensures r.Err? <==> id !in table
      ensures r.Err? ==> r == Err(NotOpen) && S() == old(S())
      ensures r.Ok? && aborted ==> r.value == Some(Cancelled(old(nextWaiter)))
      ensures r.Ok? && !aborted ==>
        && id in old(objects) && id in objects
        && var was := old(objects[id]); var text := SeenFrom(was.stream, start);
        && (r.value.Some? <==> test(text) || was.state.Exited?)
        && (r.value.Some? ==>
              r.value.value == Answer(old(nextWaiter), test(text), if test(text) then Match else RegistryState.Exit, |was.stream|, text))
        && objects[id] == if r.value.Some? then was else was.(waiters := was.waiters + [Waiter(old(nextWaiter), start, test)])
      ensures r.Ok? ==> answers == if r.value.Some? then old(answers) + [r.value.value] else old(answers)
      ensures r.Ok? ==> OthersKept(old(S()), S(), id) && NothingSent(old(S()), S()) && table == old(table)
    {
      hide Windowed, Patient, EntriesOk, SinksOk;
      if id in table { RegistryRuns.TableIsBacked(S()); RegistryRuns.EntryIsWindowed(S(), id); SeenIsText(objects[id], start); }
      RegistryRuns.StepKeepsInv(S(), graceMs, RegistryState.Wait(id, start, test, aborted));
      if id !in table {
        return Err(NotOpen);
      }
      var e := objects[id];
      var w := Waiter(nextWaiter, start, test);
      nextWaiter := nextWaiter + 1;
      asked := asked[w.id := id];
      if aborted {
        answers := answers + [Cancelled(w.id)];
        return Ok(Some(Cancelled(w.id)));
      }
      var verdict := Verdict(e, w);
      if verdict.Some? {
        answers := answers + [verdict.value];
        return Ok(verdict);
      }
      objects := objects[id := e.(waiters := e.waiters + [w])];
      return Ok(None);
    }

    /** A registered wait runs out of time, or its caller gives it up; others do not come here. */
    method EndWait(id: Id, waiter: nat, cancelled: bool) returns (answer: Answer)
      requires Valid() && id in objects && Registered(objects[id], waiter)
      modifies this`objects, this`answers
      ensures Valid() && S() == Step(old(S()), graceMs, if cancelled then Abort(id, waiter) else WaitTimesOut(id, waiter))
      ensures OthersKept(old(S()), S(), id) && answers == old(answers) + [answer]
      ensures objects[id] == old(objects[id]).(waiters := objects[id].waiters) && !Registered(objects[id], waiter)
      ensures if cancelled then answer == Cancelled(waiter) else
        answer == Answer(waiter, false, Timeout, |objects[id].stream|,
                         SeenFrom(objects[id].stream, StartOf(old(objects[id]).waiters, waiter)))
    {
      hide Inv, Windowed, Without;
      RegistryRuns.StepKeepsInv(S(), graceMs, if cancelled then Abort(id, waiter) else WaitTimesOut(id, waiter));
      RegistryRuns.EntryIsWindowed(S(), id);
      var e := objects[id];
      var start := StartOf(e.waiters, waiter);
      SeenIsText(e, start);
      answer := if cancelled then Cancelled(waiter) else Answer(waiter, false, Timeout, e.bytes, TextFrom(e, start).0);
      objects := objects[id := e.(waiters := Without(e.waiters, waiter))];
      answers := answers + [answer];
    }

    /** The microtask queue runs one deferred delivery. */
    method DeliverNext()
      requires Valid() && queue != []
      modifies this`queue, this`sinks
      ensures Valid() && S() == Step(old(S()), graceMs, Deliver)
      ensures Delivered(old(S()), S())
    {
      hide Inv;
      DeliverLeaves(S());
      RegistryRuns.StepKeepsInv(S(), graceMs, Deliver);
      var d := queue[0];
      queue := queue[1..];
      if d.sink in sinks {
        sinks := sinks[d.sink := sinks[d.sink].(received := sinks[d.sink].received + d.chunk)];
      }
    }

    /**
     * The last lines of the retained output from an offset, or of all of it: the longest tail of
     * at most so many lines, marked truncated when earlier bytes are gone or lines were cut.
     */
    method Read(id: Id, offset: Option<nat>, lines: Option<int>) returns (r: Result<TerminalRead, Refusal>)
      requires Valid()
      ensures r.Err? <==> id !in table
      ensures r.Ok? ==>
        var due, cap := Due(objects[id].stream, offset), LinesAsked(lines);
        && r.value.offset == |objects[id].stream|
        && TerminalLines.LongestTail(due, r.value.text, cap)
        && (r.value.truncated <==> |due| < |objects[id].stream| - Asked(objects[id].stream, offset) || TerminalLines.LineCount(due) > cap)
    {
      hide Inv;
      RegistryRuns.TableIsBacked(S());
      if id !in table {
        return Err(NotOpen);
      }
      RegistryRuns.EntryIsWindowed(S(), id);
      var e := objects[id];
      var cap := LinesAsked(lines);
      var from := if offset.Some? then offset.value else e.dropped;
      var (seen, gone) := TextFrom(e, from);
      DueIsSeen(e, offset);
      var (tail, cut) := TerminalLines.TailLines(seen, cap);
      TerminalLines.TailLinesIsLongest(seen, cap);
      return Ok(TerminalRead(e.bytes, tail, gone || cut));
    }

    /** Kill every open terminal among some: of one session, or all of them on shutdown. */
    method ReleaseAll(mine: set<Id>)
      requires Valid()
      modifies this
      ensures Valid() && table == old(table) - mine && objects.Keys == old(objects.Keys)
      ensures forall id :: id in old(objects) && id !in old(table) * mine ==> objects[id] == old(objects[id])
      ensures forall id :: id in old(table) * mine ==> objects[id].state.Exited? && objects[id].attaches == [] && id in terminated
    {
      hide Inv, AfterKill;
      RegistryRuns.TableIsBacked(S());
      var rest := table * mine;
      while rest != {}
        invariant Valid() && table <= objects.Keys && rest <= table * mine && table - rest == old(table) - mine
        invariant objects.Keys == old(objects.Keys) && old(table) - mine <= table <= old(table)
        invariant forall id :: id in old(objects) && id !in old(table) * mine ==> objects[id] == old(objects[id])
        decreases |rest|
      {
        var id :| id in rest;
        RegistryRuns.KillTouchesOne(S(), id);
        var _ := Kill(id);
        rest := rest - {id};
      }
      forall id | id in old(table) * mine
        ensures objects[id].state.Exited? && objects[id].attaches == [] && id in terminated
      {
        RegistryRuns.GoneIsQuiet(S(), id);
      }
    }
  }
}
