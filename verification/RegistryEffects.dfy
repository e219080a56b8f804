/** What each handler of the terminal registry comes to, for the terminal it is about and the others. */
module RegistryEffects {
  import opened Prelude
  import opened RegistryState
  import OutputWindow
  import RegistryRuns

  /** The other terminals are as they were, and their ids are found as before. */
  ghost predicate OthersKept(s: State, t: State, id: Id) {
    && t.objects.Keys == s.objects.Keys && (forall i :: i in s.objects && i != id ==> t.objects[i] == s.objects[i])
    && forall i :: i != id ==> (i in t.table <==> i in s.table)
  }

  /** No sink was attached, reached or sent anything. */
  ghost predicate NothingSent(s: State, t: State) { t.queue == s.queue && t.sinks == s.sinks }

  /** The output and the watchers of a terminal. */
  ghost predicate SameOutput(e: Entry, f: Entry) {
    f.stream == e.stream && f.buffer == e.buffer && f.bytes == e.bytes && f.dropped == e.dropped
  }

  /** What of a stream is seen from an offset: all that is retained, or what comes after the offset. */
  function SeenFrom(stream: seq<Byte>, start: int): seq<Byte> {
    var kept := OutputWindow.Tail(stream, BUFFER_BYTES);
    if start <= |stream| - |kept| then kept else if start <= |stream| then stream[start..] else []
  }

  lemma SeenIsText(e: Entry, start: int)
    requires Windowed(e)
    ensures TextFrom(e, start).0 == SeenFrom(e.stream, start) && e.bytes == |e.stream|
  {
  }

  lemma NotedLeaves(s: State, id: Id, e: Entry)
    requires id in s.objects
    ensures var t := Noted(s, id, e);
      && t.objects.Keys == s.objects.Keys && (forall i :: i in s.objects && i != id ==> t.objects[i] == s.objects[i])
      && t.objects[id] == e.(waiters := t.objects[id].waiters) && t.table == s.table && t.terminated == s.terminated && NothingSent(s, t)
      && (e.state.Exited? ==> t.objects[id].waiters == [])
  {
    RegistryRuns.WaitingIsPatient(e, e.waiters);
    hide StillWaiting, Told;
  }

  lemma DataLeaves(s: State, id: Id, chunk: seq<Byte>)
    requires id in s.objects
    ensures var t := AfterData(s, id, chunk); var e, was := t.objects[id], s.objects[id];
      && OthersKept(s, t, id) && t.table == s.table && t.terminated == s.terminated && t.sinks == s.sinks
      && e.stream == was.stream + chunk && e.state == was.state && e.attaches == was.attaches
      && e.timer == was.timer && e.settled == was.settled
      && t.queue == s.queue + ToEach(was.attaches, chunk)
  {
    NotedLeaves(s, id, Appended(s.objects[id], chunk));
    hide Noted, ToEach;
  }

  /** A kill that finds its terminal: exited, unwatched, nobody waiting, terminated once more. */
  lemma KillLeaves(s: State, id: Id)
    requires id in s.objects && id in s.table
    ensures var t := AfterKill(s, id); var e, was := t.objects[id], s.objects[id];
      && OthersKept(s, t, id) && id !in t.table && t.terminated == s.terminated + [id] && NothingSent(s, t)
      && e.state.Exited? && e.attaches == [] && e.waiters == [] && !e.timer && SameOutput(was, e) && e.settled == was.settled
  {
    NotedLeaves(s, id, s.objects[id].(timer := false, attaches := [], state := Exited));
    hide Noted;
  }

  /** The process is done: everyone waiting is told; watched terminals stay, others are killed. */
  lemma DoneLeaves(s: State, id: Id)
    requires id in s.objects && !s.objects[id].settled
    ensures var t := AfterDone(s, id); var e, was := t.objects[id], s.objects[id];
      && OthersKept(s, t, id) && NothingSent(s, t)
      && e.state.Exited? && e.settled && e.waiters == [] && e.attaches == was.attaches && SameOutput(was, e)
      && (id in t.table <==> id in s.table && was.attaches != [])
      && t.terminated == s.terminated + (if id in s.table && was.attaches == [] then [id] else [])
  {
    var e := s.objects[id].(state := Exited, settled := true);
    NotedLeaves(s, id, e);
    var m := Noted(s, id, e);
    hide Noted;
    if id in m.table && e.attaches == [] { KillLeaves(m, id); }
    assert s.terminated + [] == s.terminated;
    hide AfterKill;
  }

  /** A sink that leaves: the last one leaves a live terminal to its valve, and ends an exited one. */
  lemma DetachLeaves(s: State, graceMs: int, id: Id, k: Sink)
    requires id in s.objects && id in s.table
    ensures id in AfterDetach(s, graceMs, id, k).objects
    ensures var t := AfterDetach(s, graceMs, id, k); var e, was := t.objects[id], s.objects[id];
      && OthersKept(s, t, id) && NothingSent(s, t) && SameOutput(was, e) && e.settled == was.settled
      && (id in t.table ==> forall x :: x in e.attaches <==> x in was.attaches && x != k)
      && (id in t.table <==> !was.state.Exited? || exists x :: x in was.attaches && x != k)
      && (id in t.table ==> e.waiters == was.waiters && t.terminated == s.terminated && t.answers == s.answers)
      && (id in t.table && e.attaches != [] ==> e.state == was.state && e.timer == was.timer)
      && (id in t.table && e.attaches == [] ==> e.state.Detached? && (e.timer <==> was.timer || graceMs > 0))
      && (id !in t.table ==> e.state.Exited? && e.attaches == [] && !e.timer && t.terminated == s.terminated + [id])
  {
    var e := s.objects[id].(attaches := Minus(s.objects[id].attaches, k));
    var m := s.(objects := s.objects[id := e]);
    if e.attaches == [] { assert forall x :: x !in e.attaches; } else { assert e.attaches[0] in e.attaches; }
    if e.attaches == [] && e.state.Exited? { KillLeaves(m, id); }
    hide AfterKill, Minus;
  }

  /** A sink was let in: the terminal runs, no valve is pending, and the sink has what is retained. */
  ghost predicate Admitted(s: State, t: State, id: Id, k: Sink) {
    && id in s.objects && OthersKept(s, t, id) && t.table == s.table
    && t.terminated == s.terminated && t.answers == s.answers && t.queue == s.queue
    && var e, was := t.objects[id], s.objects[id];
    && e == was.(timer := false, state := Running, attaches := e.attaches)
    && (forall x :: x in e.attaches <==> x in was.attaches || x == k)
    && t.sinks.Keys == s.sinks.Keys + {k} && (forall x :: x in s.sinks && x != k ==> t.sinks[x] == s.sinks[x])
    && t.sinks[k].received == (if k in s.sinks then s.sinks[k].received else []) + was.buffer
  }

  lemma AttachLeaves(s: State, id: Id, k: Sink)
    requires id in s.objects && id in s.table && !s.objects[id].state.Exited?
    ensures Admitted(s, AfterAttach(s, id, k), id, k)
  {
    assert [] + s.objects[id].buffer == s.objects[id].buffer;
  }

  /** The oldest chunk on its way has reached its sink, and nothing else has happened. */
  ghost predicate Delivered(s: State, t: State) {
    && s.queue != [] && t.queue == s.queue[1..] && t.sinks.Keys == s.sinks.Keys && t.objects == s.objects && t.table == s.table
    && (forall k :: k in s.sinks && k != s.queue[0].sink ==> t.sinks[k] == s.sinks[k])
    && (s.queue[0].sink in s.sinks ==>
          var was := s.sinks[s.queue[0].sink];
          t.sinks[s.queue[0].sink] == was.(received := was.received + s.queue[0].chunk))
  }

  lemma DeliverLeaves(s: State)
    requires s.queue != []
    ensures Delivered(s, AfterDeliver(s))
  {
  }

  lemma TimerLeaves(s: State, id: Id)
    requires id in s.objects && s.objects[id].timer && id in s.table
    ensures var t := AfterTimer(s, id); var e, was := t.objects[id], s.objects[id];
      && OthersKept(s, t, id) && id !in t.table && t.terminated == s.terminated + [id] && NothingSent(s, t)
      && e.state.Exited? && e.attaches == [] && e.waiters == [] && !e.timer && SameOutput(was, e)
  {
    KillLeaves(s.(objects := s.objects[id := s.objects[id].(timer := false)]), id);
    hide AfterKill;
  }

  // --------------------------------------------------------------- the valve, over a run

  ghost predicate NoTimers(s: State) { forall id :: id in s.objects ==> !s.objects[id].timer }

  lemma StepSetsNoTimer(s: State, graceMs: int, ev: Event)
    requires NoTimers(s) && s.table <= s.objects.Keys && !(ev.Detach? && graceMs > 0)
    ensures NoTimers(Step(s, graceMs, ev))
  {
    hide StillWaiting, Told, ToEach, Plus, Minus, Without;
    match ev
    case Detach(id, k) => if id in s.table { DetachLeaves(s, graceMs, id, k); }
    case _ =>
  }

  /** With the valve switched off no terminal ever has a timer: a shell nobody watches is kept. */
  lemma {:induction false} NoGraceNoTimer(graceMs: int, schedule: seq<Event>)
    requires graceMs <= 0
    ensures NoTimers(Run(Init, graceMs, schedule))
    decreases |schedule|
  {
    hide Step, NoTimers, Inv;
    if schedule == [] {
      NothingOpen();
    } else {
      var n := |schedule| - 1;
      NoGraceNoTimer(graceMs, schedule[..n]);
      RegistryRuns.InitInv();
      RegistryRuns.RunKeepsInv(Init, graceMs, schedule[..n]);
      RegistryRuns.TableIsBacked(Run(Init, graceMs, schedule[..n]));
      StepSetsNoTimer(Run(Init, graceMs, schedule[..n]), graceMs, schedule[n]);
    }
  }

  lemma NothingOpen()
    ensures NoTimers(Init)
  {
  }
}
