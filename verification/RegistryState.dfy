/**
 * The terminal registry as a state machine. JavaScript runs each handler to completion, so a
 * handler is one step; each deferred delivery to a sink is a step of its own.
 */
module RegistryState {
  import opened Prelude
  import OutputWindow

  /** How much output a terminal retains. */
  const BUFFER_BYTES: nat := 262144

  type Id = nat
  type Sink = nat

  datatype Phase = Running | Detached | Exited

  /** A wait: where its search starts and what it looks for in the text from there. */
  datatype Waiter = Waiter(id: nat, start: int, test: seq<Byte> -> bool)

  datatype Reason = Match | Exit | Timeout

  datatype Answer = Answer(waiter: nat, matched: bool, reason: Reason, offset: nat, text: seq<Byte>) | Cancelled(waiter: nat)

  /** A terminal. `stream` is everything its process has written; the rest is what is kept. */
  datatype Entry = Entry(
    stream: seq<Byte>,
    buffer: seq<Byte>,
    bytes: nat,
    dropped: int,
    state: Phase,
    attaches: seq<Sink>,
    waiters: seq<Waiter>,
    timer: bool,
    settled: bool)

  /** What one sink has received, how often it was attached, and where it was first. */
  datatype Log = Log(received: seq<Byte>, joins: nat, entry: Id, from: int)

  /** A chunk on its way to a sink. */
  datatype Delivery = Delivery(sink: Sink, chunk: seq<Byte>)

  /**
   * `objects` is every terminal ever opened, `table` the ones an id still finds, and `asked`
   * the terminal each wait was for.
   */
  datatype State = State(
    objects: map<Id, Entry>,
    table: set<Id>,
    nextOrdinal: nat,
    nextWaiter: nat,
    asked: map<nat, Id>,
    queue: seq<Delivery>,
    sinks: map<Sink, Log>,
    answers: seq<Answer>,
    terminated: seq<Id>)

  const Init := State(map[], {}, 0, 0, map[], [], map[], [], [])

  datatype Event =
    | Open
    | Data(id: Id, chunk: seq<Byte>)
    | Done(id: Id)
    | Attach(id: Id, sink: Sink)
    | Detach(id: Id, sink: Sink)
    | TimerFires(id: Id)
    | Kill(id: Id)
    | Wait(id: Id, start: int, test: seq<Byte> -> bool, aborted: bool)
    | WaitTimesOut(id: Id, waiter: nat)
    | Abort(id: Id, waiter: nat)
    | Deliver

  // -------------------------------------------------------------------- one terminal

  const Fresh := Entry([], [], 0, 0, Running, [], [], false, false)

  /** The terminal after more output: the window slides along the stream. */
  function Appended(e: Entry, chunk: seq<Byte>): Entry {
    var stream := e.stream + chunk;
    var buffer := OutputWindow.Tail(stream, BUFFER_BYTES);
    e.(stream := stream, buffer := buffer, bytes := |stream|, dropped := |stream| - |buffer|)
  }

  ghost predicate Windowed(e: Entry) {
    e.buffer == OutputWindow.Tail(e.stream, BUFFER_BYTES) && e.bytes == |e.stream| && e.dropped == |e.stream| - |e.buffer|
  }

  /** The retained text from an absolute offset, and whether earlier bytes are gone. */
  function TextFrom(e: Entry, from: int): (seq<Byte>, bool) {
    var start := Max(from, e.dropped) - e.dropped;
    (if start <= |e.buffer| then e.buffer[start..] else [], from < e.dropped)
  }

  /** Reading from an offset gives the stream from there, or all that is retained of it. */
  lemma TextFromIsTheStream(e: Entry, from: int)
    requires Windowed(e) && 0 <= from <= |e.stream|
    ensures var (text, truncated) := TextFrom(e, from);
            && (!truncated ==> text == e.stream[from..])
            && (truncated ==> from < |e.stream| - BUFFER_BYTES && text == OutputWindow.Tail(e.stream, BUFFER_BYTES))
  {
  }

  /** What a waiter is told when it looks now, if it is done. */
  function Verdict(e: Entry, w: Waiter): Option<Answer> {
    var text := TextFrom(e, w.start).0;
    if w.test(text) then Some(Answer(w.id, true, Match, e.bytes, text))
    else if e.state.Exited? then Some(Answer(w.id, false, Exit, e.bytes, text))
    else None
  }

  function StillWaiting(e: Entry, ws: seq<Waiter>): seq<Waiter> {
    if ws == [] then []
    else StillWaiting(e, ws[..|ws| - 1]) + (if Verdict(e, ws[|ws| - 1]).None? then [ws[|ws| - 1]] else [])
  }

  function Told(e: Entry, ws: seq<Waiter>): seq<Answer> {
    if ws == [] then []
    else Told(e, ws[..|ws| - 1]) + (if Verdict(e, ws[|ws| - 1]).Some? then [Verdict(e, ws[|ws| - 1]).value] else [])
  }

  function Notified(e: Entry): Entry { e.(waiters := StillWaiting(e, e.waiters)) }

  function Without(ws: seq<Waiter>, id: nat): (r: seq<Waiter>)
    ensures forall w :: w in r ==> w in ws && w.id != id
  {
    if ws == [] then [] else Without(ws[..|ws| - 1], id) + (if ws[|ws| - 1].id == id then [] else [ws[|ws| - 1]])
  }

  function Minus(sinks: seq<Sink>, k: Sink): (r: seq<Sink>)
    ensures forall x :: x in r <==> x in sinks && x != k
  {
    if sinks == [] then [] else Minus(sinks[..|sinks| - 1], k) + (if sinks[|sinks| - 1] == k then [] else [sinks[|sinks| - 1]])
  }

  function Plus(sinks: seq<Sink>, k: Sink): seq<Sink> { if k in sinks then sinks else sinks + [k] }

  // ------------------------------------------------------------------- the handlers

  /** Store a terminal after waking its waiters. */
  function Noted(s: State, id: Id, e: Entry): State {
    s.(objects := s.objects[id := Notified(e)], answers := s.answers + Told(e, e.waiters))
  }

  function AfterOpen(s: State): State {
    var id := s.nextOrdinal + 1;
    s.(objects := s.objects[id := Fresh], table := s.table + {id}, nextOrdinal := id)
  }

  function ToEach(sinks: seq<Sink>, chunk: seq<Byte>): (r: seq<Delivery>)
    ensures |r| == |sinks| && forall i :: 0 <= i < |r| ==> r[i] == Delivery(sinks[i], chunk)
  {
    seq(|sinks|, i requires 0 <= i < |sinks| => Delivery(sinks[i], chunk))
  }

  function AfterData(s: State, id: Id, chunk: seq<Byte>): State {
    if id !in s.objects then s
    else
      var e := Appended(s.objects[id], chunk);
      Noted(s, id, e).(queue := s.queue + ToEach(e.attaches, chunk))
  }

  function AfterKill(s: State, id: Id): State {
    if id !in s.table || id !in s.objects then s
    else
      var e := s.objects[id].(timer := false, attaches := [], state := Exited);
      Noted(s, id, e).(table := s.table - {id}, terminated := s.terminated + [id])
  }

  /** The process is done; its promise settles once. */
  function AfterDone(s: State, id: Id): State {
    if id !in s.objects || s.objects[id].settled then s
    else
      var e := s.objects[id].(state := Exited, settled := true);
      if e.attaches == [] then AfterKill(Noted(s, id, e), id) else Noted(s, id, e)
  }

  function Joined(sinks: map<Sink, Log>, k: Sink, id: Id, e: Entry): Log {
    if k in sinks then sinks[k].(received := sinks[k].received + e.buffer, joins := sinks[k].joins + 1)
    else Log(e.buffer, 1, id, e.dropped)
  }

  /** A sink joins a live terminal and is given the retained output at once. */
  function AfterAttach(s: State, id: Id, k: Sink): State {
    if id !in s.table || id !in s.objects || s.objects[id].state.Exited? then s
    else
      var e := s.objects[id];
      s.(objects := s.objects[id := e.(timer := false, state := Running, attaches := Plus(e.attaches, k))],
         sinks := s.sinks[k := Joined(s.sinks, k, id, e)])
  }

  function AfterDetach(s: State, graceMs: int, id: Id, k: Sink): State {
    if id !in s.table || id !in s.objects then s
    else
      var e := s.objects[id].(attaches := Minus(s.objects[id].attaches, k));
      var s1 := s.(objects := s.objects[id := e]);
      if e.attaches != [] then s1
      else if e.state.Exited? then AfterKill(s1, id)
      else s.(objects := s.objects[id := e.(state := Detached, timer := e.timer || graceMs > 0)])
  }

  function AfterTimer(s: State, id: Id): State {
    if id !in s.objects || !s.objects[id].timer then s
    else AfterKill(s.(objects := s.objects[id := s.objects[id].(timer := false)]), id)
  }

  function AfterWait(s: State, id: Id, start: int, test: seq<Byte> -> bool, aborted: bool): State {
    if id !in s.table || id !in s.objects then s
    else
      var e := s.objects[id];
      var w := Waiter(s.nextWaiter, start, test);
      var s1 := s.(nextWaiter := s.nextWaiter + 1, asked := s.asked[w.id := id]);
      if aborted then s1.(answers := s.answers + [Cancelled(w.id)])
      else if Verdict(e, w).Some? then s1.(answers := s.answers + [Verdict(e, w).value])
      else s1.(objects := s.objects[id := e.(waiters := e.waiters + [w])])
  }

  predicate Registered(e: Entry, waiter: nat) { exists i :: 0 <= i < |e.waiters| && e.waiters[i].id == waiter }

  function StartOf(ws: seq<Waiter>, waiter: nat): int {
    if ws == [] then 0 else if ws[0].id == waiter then ws[0].start else StartOf(ws[1..], waiter)
  }

  function AfterWaitEnds(s: State, id: Id, waiter: nat, cancelled: bool): State {
    if id !in s.objects || !Registered(s.objects[id], waiter) then s
    else
      var e := s.objects[id];
      var answer := if cancelled then Cancelled(waiter)
                    else Answer(waiter, false, Timeout, e.bytes, TextFrom(e, StartOf(e.waiters, waiter)).0);
      s.(objects := s.objects[id := e.(waiters := Without(e.waiters, waiter))], answers := s.answers + [answer])
  }

  /** The oldest deferred delivery reaches its sink. */
  function AfterDeliver(s: State): State {
    if s.queue == [] then s
    else
      var d := s.queue[0];
      if d.sink !in s.sinks then s.(queue := s.queue[1..])
      else s.(queue := s.queue[1..],
              sinks := s.sinks[d.sink := s.sinks[d.sink].(received := s.sinks[d.sink].received + d.chunk)])
  }

  function Step(s: State, graceMs: int, ev: Event): State {
    match ev
    case Open => AfterOpen(s)
    case Data(id, chunk) => AfterData(s, id, chunk)
    case Done(id) => AfterDone(s, id)
    case Attach(id, k) => AfterAttach(s, id, k)
    case Detach(id, k) => AfterDetach(s, graceMs, id, k)
    case TimerFires(id) => AfterTimer(s, id)
    case Kill(id) => AfterKill(s, id)
    case Wait(id, start, test, aborted) => AfterWait(s, id, start, test, aborted)
    case WaitTimesOut(id, w) => AfterWaitEnds(s, id, w, false)
    case Abort(id, w) => AfterWaitEnds(s, id, w, true)
    case Deliver => AfterDeliver(s)
  }

  function Run(s: State, graceMs: int, schedule: seq<Event>): State {
    if schedule == [] then s else Step(Run(s, graceMs, schedule[..|schedule| - 1]), graceMs, schedule[|schedule| - 1])
  }

  // ------------------------------------------------------------- what every run keeps

  ghost predicate NoRepeats<T>(xs: seq<T>) { forall i, j :: 0 <= i < j < |xs| ==> xs[i] != xs[j] }

  /** No registered wait could be answered: nothing matches and the terminal is not gone. */
  ghost predicate Patient(e: Entry) {
    (forall w :: w in e.waiters ==> Verdict(e, w).None?) && (e.state.Exited? ==> e.waiters == [])
  }

  ghost predicate Lifecycle(e: Entry, live: bool) {
    && NoRepeats(e.attaches)
    && (e.state.Detached? ==> e.attaches == [])
    && (e.timer ==> e.state.Detached?)
    && (live && e.state.Exited? ==> e.attaches != [])
    && (!live ==> e.state.Exited? && e.attaches == [])
  }

  ghost predicate EntryOk(e: Entry, live: bool) { Windowed(e) && Patient(e) && Lifecycle(e, live) }

  ghost predicate EntriesOk(s: State) { forall id :: id in s.objects ==> EntryOk(s.objects[id], id in s.table) }

  /** Ids come from a counter, and an opened terminal is in the table or was terminated, once. */
  ghost predicate IdsOk(s: State) {
    && (forall id :: id in s.objects ==> id <= s.nextOrdinal)
    && s.table <= s.objects.Keys
    && NoRepeats(s.terminated)
    && (forall id :: id in s.objects ==> (id in s.terminated <==> id !in s.table))
    && (forall id :: id in s.terminated ==> id in s.objects)
  }

  /** The bytes on their way to one sink, in order. */
  function InFlight(queue: seq<Delivery>, k: Sink): seq<Byte> {
    if queue == [] then [] else (if queue[0].sink == k then queue[0].chunk else []) + InFlight(queue[1..], k)
  }

  /**
   * A sink attached once has received, and will once the queue drains, one contiguous piece of
   * its terminal's stream from the offset where its replay began; all of it while attached.
   */
  ghost predicate Served(s: State, k: Sink)
    requires k in s.sinks
  {
    var log := s.sinks[k];
    && log.entry in s.objects && 0 <= log.from <= |s.objects[log.entry].stream|
    && var due := s.objects[log.entry].stream[log.from..];
       && log.received + InFlight(s.queue, k) <= due
       && (k in s.objects[log.entry].attaches ==> log.received + InFlight(s.queue, k) == due)
  }

  ghost predicate Logged(s: State, id: Id, k: Sink) {
    k in s.sinks && (s.sinks[k].joins == 1 ==> s.sinks[k].entry == id)
  }

  ghost predicate SinksOk(s: State) {
    && (forall id, k :: id in s.objects && k in s.objects[id].attaches ==> Logged(s, id, k))
    && (forall k :: k in s.sinks ==> s.sinks[k].joins >= 1 && (s.sinks[k].joins == 1 ==> Served(s, k)))
    && (forall k :: k !in s.sinks ==> InFlight(s.queue, k) == [])
  }

  ghost predicate Inv(s: State) { EntriesOk(s) && IdsOk(s) && SinksOk(s) }
}
