/** What every run of the terminal registry keeps. */
module RegistryRuns {
  import opened Prelude
  import opened RegistryState

  // ---------------------------------------------------------------------- small facts

  lemma {:induction false} WaitingIsPatient(e: Entry, ws: seq<Waiter>)
    ensures forall w :: w in StillWaiting(e, ws) ==> w in ws && Verdict(e, w).None?
    ensures e.state.Exited? ==> StillWaiting(e, ws) == []
  {
    if ws != [] { WaitingIsPatient(e, ws[..|ws| - 1]); }
  }

  /** Waking the waiters leaves only those that have nothing to be told. */
  lemma NotifiedIsPatient(e: Entry)
    ensures Patient(Notified(e))
  {
    hide Verdict;
    WaitingIsPatient(e, e.waiters);
    forall w | w in Notified(e).waiters ensures Verdict(Notified(e), w).None? { SameVerdict(e, Notified(e), w); }
  }

  lemma SameVerdict(e: Entry, f: Entry, w: Waiter)
    requires e.buffer == f.buffer && e.dropped == f.dropped && e.bytes == f.bytes && (e.state.Exited? <==> f.state.Exited?)
    ensures Verdict(e, w) == Verdict(f, w)
  {
  }

  lemma {:induction false} MinusNoRepeats(sinks: seq<Sink>, k: Sink)
    requires NoRepeats(sinks)
    ensures NoRepeats(Minus(sinks, k))
  {
    if sinks != [] {
      var n := |sinks| - 1;
      MinusNoRepeats(sinks[..n], k);
      assert sinks[n] !in sinks[..n];
    }
  }

  lemma {:induction false} InFlightAppend(a: seq<Delivery>, b: seq<Delivery>, k: Sink)
    ensures InFlight(a + b, k) == InFlight(a, k) + InFlight(b, k)
  {
    if a == [] {
      assert a + b == b;
    } else {
      assert (a + b)[1..] == a[1..] + b;
      InFlightAppend(a[1..], b, k);
    }
  }

  /** A chunk sent to each of some sinks is sent once to every one of them, to nobody else. */
  lemma {:induction false} InFlightToEach(sinks: seq<Sink>, chunk: seq<Byte>, k: Sink)
    requires NoRepeats(sinks)
    ensures InFlight(ToEach(sinks, chunk), k) == if k in sinks then chunk else []
  {
    if sinks != [] {
      assert ToEach(sinks, chunk)[1..] == ToEach(sinks[1..], chunk);
      InFlightToEach(sinks[1..], chunk, k);
      assert k in sinks <==> k == sinks[0] || k in sinks[1..];
    }
  }

  // ------------------------------------------------------------------ entries and ids

  lemma NotedKeepsOthers(s: State, id: Id, e: Entry)
    requires EntriesOk(s) && id in s.objects && Windowed(e) && Lifecycle(e, id in s.table)
    ensures EntriesOk(Noted(s, id, e))
  {
    hide Windowed, Patient, StillWaiting;
    NotifiedIsPatient(e);
    NotifiedIsWindowed(e);
    assert Lifecycle(Notified(e), id in s.table);
  }

  lemma NotifiedIsWindowed(e: Entry)
    requires Windowed(e)
    ensures Windowed(Notified(e))
  {
  }

  lemma AppendedIsWindowed(e: Entry, chunk: seq<Byte>)
    ensures Windowed(Appended(e, chunk))
  {
  }

  lemma KillKeepsEntries(s: State, id: Id)
    requires forall i :: i in s.objects && i != id ==> EntryOk(s.objects[i], i in s.table)
    requires id in s.objects ==> Windowed(s.objects[id]) && (id !in s.table ==> EntryOk(s.objects[id], false))
    requires IdsOk(s)
    ensures IdsOk(AfterKill(s, id))
    ensures id in s.table ==> EntriesOk(AfterKill(s, id))
  {
    hide Windowed, Patient, Notified;
    if id in s.table {
      var e := s.objects[id].(timer := false, attaches := [], state := Exited);
      NotifiedIsPatient(e);
      KilledIsWindowed(s.objects[id]);
      NotifiedIsWindowed(e);
      NotifiedKeepsTheRest(e);
      assert EntryOk(Notified(e), false);
      assert id !in s.terminated;
    }
  }

  lemma KilledIsWindowed(e: Entry)
    requires Windowed(e)
    ensures Windowed(e.(timer := false, attaches := [], state := Exited))
  {
  }

  lemma NotifiedKeepsTheRest(e: Entry)
    ensures Notified(e) == e.(waiters := Notified(e).waiters)
  {
  }

  lemma OpenKeepsEntries(s: State)
    requires EntriesOk(s) && IdsOk(s)
    ensures EntriesOk(AfterOpen(s)) && IdsOk(AfterOpen(s))
    ensures s.nextOrdinal + 1 !in s.objects
  {
    assert EntryOk(Fresh, true);
  }

  lemma DataKeepsEntries(s: State, id: Id, chunk: seq<Byte>)
    requires EntriesOk(s) && IdsOk(s)
    ensures EntriesOk(AfterData(s, id, chunk)) && IdsOk(AfterData(s, id, chunk))
  {
    hide Windowed, Patient, Notified, ToEach;
    if id in s.objects {
      var e := Appended(s.objects[id], chunk);
      AppendedIsWindowed(s.objects[id], chunk);
      NotedKeepsOthers(s, id, e);
    }
  }

  lemma DoneKeepsEntries(s: State, id: Id)
    requires EntriesOk(s) && IdsOk(s)
    ensures EntriesOk(AfterDone(s, id)) && IdsOk(AfterDone(s, id))
  {
    hide Windowed, Patient, Notified;
    if id in s.objects && !s.objects[id].settled {
      var e := s.objects[id].(state := Exited, settled := true);
      DoneIsWindowed(s.objects[id]);
      if e.attaches == [] {
        var s1 := Noted(s, id, e);
        NotifiedIsPatient(e);
        NotifiedIsWindowed(e);
        NotifiedKeepsTheRest(e);
        KillKeepsEntries(s1, id);
        assert id !in s.table ==> s1 == AfterKill(s1, id) && EntriesOk(s1);
      } else {
        NotedKeepsOthers(s, id, e);
      }
    }
  }

  lemma DoneIsWindowed(e: Entry)
    requires Windowed(e)
    ensures Windowed(e.(state := Exited, settled := true))
  {
  }

  lemma AttachKeepsEntries(s: State, id: Id, k: Sink)
    requires EntriesOk(s) && IdsOk(s)
    ensures EntriesOk(AfterAttach(s, id, k)) && IdsOk(AfterAttach(s, id, k))
  {
    if id in s.table && !s.objects[id].state.Exited? {
      var e := s.objects[id];
      var f := e.(timer := false, state := Running, attaches := Plus(e.attaches, k));
      PatientStays(e, f);
      assert EntryOk(f, true) by { hide Patient; }
    }
  }

  lemma PatientStays(e: Entry, f: Entry)
    requires Patient(e) && forall w :: w in f.waiters ==> w in e.waiters
    requires e.buffer == f.buffer && e.dropped == f.dropped && e.bytes == f.bytes && (e.state.Exited? <==> f.state.Exited?)
    ensures Patient(f)
  {
    hide Verdict;
    forall w | w in f.waiters ensures Verdict(f, w).None? { SameVerdict(e, f, w); }
    assert f.waiters != [] ==> f.waiters[0] in e.waiters;
  }

  lemma LeavingKeeps(e: Entry, k: Sink, live: bool)
    requires EntryOk(e, live)
    ensures var f := e.(attaches := Minus(e.attaches, k));
      && Windowed(f) && Patient(f) && NoRepeats(f.attaches)
      && (live && f.attaches != [] ==> EntryOk(f, live))
      && (live && f.attaches == [] && !f.state.Exited? ==>
            forall timer: bool :: EntryOk(f.(state := Detached, timer := timer), live))
  {
    var f := e.(attaches := Minus(e.attaches, k));
    MinusNoRepeats(e.attaches, k);
    PatientStays(e, f);
    if !f.state.Exited? {
      forall timer: bool ensures Patient(f.(state := Detached, timer := timer)) {
        PatientStays(e, f.(state := Detached, timer := timer));
      }
    }
  }

  lemma DetachKeepsEntries(s: State, graceMs: int, id: Id, k: Sink)
    requires EntriesOk(s) && IdsOk(s)
    ensures EntriesOk(AfterDetach(s, graceMs, id, k)) && IdsOk(AfterDetach(s, graceMs, id, k))
  {
    hide EntryOk, Windowed, NoRepeats, AfterKill;
    if id in s.table {
      var f := s.objects[id].(attaches := Minus(s.objects[id].attaches, k));
      LeavingKeeps(s.objects[id], k, true);
      var s1 := s.(objects := s.objects[id := f]);
      if f.attaches == [] && f.state.Exited? {
        KillKeepsEntries(s1, id);
      } else {
        ReplacedKeepsEntries(s, id, AfterDetach(s, graceMs, id, k).objects[id]);
      }
    }
  }

  lemma TimerKeepsEntries(s: State, id: Id)
    requires EntriesOk(s) && IdsOk(s)
    ensures EntriesOk(AfterTimer(s, id)) && IdsOk(AfterTimer(s, id))
  {
    hide Patient, Notified;
    if id in s.objects && s.objects[id].timer {
      KillKeepsEntries(s.(objects := s.objects[id := s.objects[id].(timer := false)]), id);
    }
  }

  lemma WaitKeepsEntries(s: State, id: Id, start: int, test: seq<Byte> -> bool, aborted: bool)
    requires EntriesOk(s) && IdsOk(s)
    ensures EntriesOk(AfterWait(s, id, start, test, aborted)) && IdsOk(AfterWait(s, id, start, test, aborted))
  {
    if id in s.table {
      var e := s.objects[id];
      assert EntryOk(e, true);
      var w := Waiter(s.nextWaiter, start, test);
      var f := e.(waiters := e.waiters + [w]);
      if Verdict(e, w).None? {
        forall x | x in f.waiters ensures Verdict(f, x).None? { SameVerdict(e, f, x); }
        assert EntryOk(f, true);
      }
    }
  }

  lemma FewerWaiters(e: Entry, waiter: nat, live: bool)
    requires EntryOk(e, live)
    ensures EntryOk(e.(waiters := Without(e.waiters, waiter)), live)
  {
    hide Patient, NoRepeats;
    PatientStays(e, e.(waiters := Without(e.waiters, waiter)));
  }

  lemma ReplacedKeepsEntries(s: State, id: Id, e: Entry)
    requires EntriesOk(s) && IdsOk(s) && id in s.objects && EntryOk(e, id in s.table)
    ensures var t := s.(objects := s.objects[id := e]); EntriesOk(t) && IdsOk(t)
  {
    hide EntryOk, NoRepeats;
  }

  lemma WaitEndKeepsEntries(s: State, id: Id, waiter: nat, cancelled: bool)
    requires EntriesOk(s) && IdsOk(s)
    ensures EntriesOk(AfterWaitEnds(s, id, waiter, cancelled)) && IdsOk(AfterWaitEnds(s, id, waiter, cancelled))
  {
    hide EntryOk, NoRepeats, TextFrom, StartOf, Without, Registered;
    if id in s.objects && Registered(s.objects[id], waiter) {
      var e := s.objects[id];
      FewerWaiters(e, waiter, id in s.table);
      ReplacedKeepsEntries(s, id, e.(waiters := Without(e.waiters, waiter)));
    }
  }

  lemma StepKeepsEntries(s: State, graceMs: int, ev: Event)
    requires EntriesOk(s) && IdsOk(s)
    ensures EntriesOk(Step(s, graceMs, ev)) && IdsOk(Step(s, graceMs, ev))
  {
    match ev
    case Open => OpenKeepsEntries(s);
    case Data(id, chunk) => DataKeepsEntries(s, id, chunk);
    case Done(id) => DoneKeepsEntries(s, id);
    case Attach(id, k) => AttachKeepsEntries(s, id, k);
    case Detach(id, k) => DetachKeepsEntries(s, graceMs, id, k);
    case TimerFires(id) => TimerKeepsEntries(s, id);
    case Kill(id) => KillKeepsEntries(s, id);
    case Wait(id, start, test, aborted) => WaitKeepsEntries(s, id, start, test, aborted);
    case WaitTimesOut(id, w) => WaitEndKeepsEntries(s, id, w, false);
    case Abort(id, w) => WaitEndKeepsEntries(s, id, w, true);
    case Deliver =>
  }

  // ------------------------------------------------------------------ what sinks receive

  /** Nothing was written or sent, and no sink was added. */
  ghost predicate Narrows(s: State, t: State) {
    && t.sinks == s.sinks && t.queue == s.queue && t.objects.Keys == s.objects.Keys
    && forall id :: id in s.objects ==>
         && t.objects[id].stream == s.objects[id].stream
         && forall k :: k in t.objects[id].attaches ==> k in s.objects[id].attaches
  }

  lemma NarrowingKeepsSinks(s: State, t: State)
    requires SinksOk(s) && Narrows(s, t)
    ensures SinksOk(t)
  {
  }

  lemma KillNarrows(s: State, id: Id)
    ensures Narrows(s, AfterKill(s, id))
  {
  }

  lemma DoneNarrows(s: State, id: Id)
    ensures Narrows(s, AfterDone(s, id))
  {
  }

  lemma DetachNarrows(s: State, graceMs: int, id: Id, k: Sink)
    ensures Narrows(s, AfterDetach(s, graceMs, id, k))
  {
    hide AfterKill;
    if id in s.table && id in s.objects {
      var e := s.objects[id].(attaches := Minus(s.objects[id].attaches, k));
      KillNarrows(s.(objects := s.objects[id := e]), id);
    }
  }

  lemma TimerNarrows(s: State, id: Id)
    ensures Narrows(s, AfterTimer(s, id))
  {
  }

  lemma WaitNarrows(s: State, id: Id, start: int, test: seq<Byte> -> bool, aborted: bool)
    ensures Narrows(s, AfterWait(s, id, start, test, aborted))
  {
  }

  lemma WaitEndNarrows(s: State, id: Id, waiter: nat, cancelled: bool)
    ensures Narrows(s, AfterWaitEnds(s, id, waiter, cancelled))
  {
  }

  lemma OpenKeepsSinks(s: State)
    requires SinksOk(s) && s.nextOrdinal + 1 !in s.objects
    ensures SinksOk(AfterOpen(s))
  {
  }

  /** A chunk reaches the sinks of its terminal, at the end of what is on its way to them. */
  lemma DataServes(s: State, id: Id, chunk: seq<Byte>, k: Sink)
    requires SinksOk(s) && id in s.objects && NoRepeats(s.objects[id].attaches)
    ensures var t := AfterData(s, id, chunk);
            InFlight(t.queue, k) == InFlight(s.queue, k) + (if k in s.objects[id].attaches then chunk else [])
    ensures k in s.sinks && s.sinks[k].joins == 1 ==> Served(AfterData(s, id, chunk), k)
  {
    hide Notified, Told, ToEach, InFlight;
    var e, t := s.objects[id], AfterData(s, id, chunk);
    InFlightAppend(s.queue, ToEach(e.attaches, chunk), k);
    InFlightToEach(e.attaches, chunk, k);
    NotifiedKeepsTheRest(Appended(e, chunk));
    if k in s.sinks && s.sinks[k].joins == 1 {
      var log := s.sinks[k];
      assert Served(s, k);
      if k in e.attaches { assert Logged(s, id, k); }
      var got := log.received + InFlight(s.queue, k);
      if log.entry == id {
        assert (e.stream + chunk)[log.from..] == e.stream[log.from..] + chunk;
      }
      assert log.received + InFlight(t.queue, k) == got + (if k in e.attaches then chunk else []);
    }
  }

  lemma DataKeepsSinks(s: State, id: Id, chunk: seq<Byte>)
    requires SinksOk(s) && EntriesOk(s)
    ensures SinksOk(AfterData(s, id, chunk))
  {
    hide Notified, Told, ToEach, InFlight, Served, Appended;
    if id in s.objects {
      var t := AfterData(s, id, chunk);
      NotifiedKeepsTheRest(Appended(s.objects[id], chunk));
      AppendedKeepsSinks(s.objects[id], chunk);
      assert EntryOk(s.objects[id], id in s.table);
      forall k ensures InFlight(t.queue, k) == InFlight(s.queue, k) + (if k in s.objects[id].attaches then chunk else [])
                       && (k in s.sinks && s.sinks[k].joins == 1 ==> Served(t, k)) {
        DataServes(s, id, chunk, k);
      }
      forall i, k | i in t.objects && k in t.objects[i].attaches ensures Logged(t, i, k) {
        assert Logged(s, i, k);
      }
      forall k | k !in t.sinks ensures InFlight(t.queue, k) == [] {
        assert k in s.objects[id].attaches ==> Logged(s, id, k);
      }
    }
  }

  lemma AppendedKeepsSinks(e: Entry, chunk: seq<Byte>)
    ensures Appended(e, chunk).attaches == e.attaches
  {
  }

  lemma AttachKeepsSinks(s: State, id: Id, k: Sink)
    requires SinksOk(s) && EntriesOk(s)
    ensures SinksOk(AfterAttach(s, id, k))
  {
    hide InFlight;
    var t := AfterAttach(s, id, k);
    if t != s {
      var e := s.objects[id];
      assert EntryOk(e, true);
      forall i, x | i in t.objects && x in t.objects[i].attaches ensures Logged(t, i, x) {
        if x != k || i != id { assert Logged(s, i, x); }
      }
      forall x | x in t.sinks && t.sinks[x].joins == 1 ensures Served(t, x) {
        if x != k {
          assert Served(s, x);
        } else if k !in s.sinks {
          assert e.stream[e.dropped..] == e.buffer;
          assert e.buffer + [] == e.buffer;
        }
      }
    }
  }

  /** A delivery moves one chunk from on its way to received. */
  lemma DeliveryMoves(s: State, k: Sink)
    requires s.queue != [] && k in s.sinks
    ensures var t := AfterDeliver(s);
      && k in t.sinks && t.sinks[k] == s.sinks[k].(received := t.sinks[k].received)
      && t.sinks[k].received + InFlight(t.queue, k) == s.sinks[k].received + InFlight(s.queue, k)
  {
    var d := s.queue[0];
    if k == d.sink {
      assert s.sinks[k].received + (d.chunk + InFlight(s.queue[1..], k)) == (s.sinks[k].received + d.chunk) + InFlight(s.queue[1..], k);
    }
  }

  lemma DeliverKeepsSinks(s: State)
    requires SinksOk(s)
    ensures SinksOk(AfterDeliver(s))
  {
    var t := AfterDeliver(s);
    if s.queue != [] {
      DeliverKeepsTheRest(s);
      hide AfterDeliver, InFlight;
      forall k | k in t.sinks ensures t.sinks[k].joins >= 1 && (t.sinks[k].joins == 1 ==> Served(t, k)) {
        DeliveryMoves(s, k);
        assert s.sinks[k].joins == 1 ==> Served(s, k);
      }
      forall i, k | i in t.objects && k in t.objects[i].attaches ensures Logged(t, i, k) {
        assert Logged(s, i, k);
        DeliveryMoves(s, k);
      }
    }
  }

  lemma DeliverKeepsTheRest(s: State)
    requires s.queue != []
    ensures var t := AfterDeliver(s);
      && t.objects == s.objects && t.sinks.Keys == s.sinks.Keys
      && forall k :: InFlight(s.queue, k) == [] ==> InFlight(t.queue, k) == []
  {
  }

  lemma StepKeepsInv(s: State, graceMs: int, ev: Event)
    requires Inv(s)
    ensures Inv(Step(s, graceMs, ev))
  {
    hide EntriesOk, SinksOk, Narrows, AfterOpen, AfterData, AfterDone, AfterAttach, AfterDetach, AfterTimer, AfterKill,
         AfterWait, AfterWaitEnds, AfterDeliver;
    StepKeepsEntries(s, graceMs, ev);
    var t := Step(s, graceMs, ev);
    match ev
    case Open => OpenKeepsEntries(s); OpenKeepsSinks(s);
    case Data(id, chunk) => DataKeepsSinks(s, id, chunk);
    case Done(id) => DoneNarrows(s, id); NarrowingKeepsSinks(s, t);
    case Attach(id, k) => AttachKeepsSinks(s, id, k);
    case Detach(id, k) => DetachNarrows(s, graceMs, id, k); NarrowingKeepsSinks(s, t);
    case TimerFires(id) => TimerNarrows(s, id); NarrowingKeepsSinks(s, t);
    case Kill(id) => KillNarrows(s, id); NarrowingKeepsSinks(s, t);
    case Wait(id, start, test, aborted) => WaitNarrows(s, id, start, test, aborted); NarrowingKeepsSinks(s, t);
    case WaitTimesOut(id, w) => WaitEndNarrows(s, id, w, false); NarrowingKeepsSinks(s, t);
    case Abort(id, w) => WaitEndNarrows(s, id, w, true); NarrowingKeepsSinks(s, t);
    case Deliver => DeliverKeepsSinks(s);
  }

  lemma {:induction false} RunKeepsInv(s: State, graceMs: int, schedule: seq<Event>)
    requires Inv(s)
    ensures Inv(Run(s, graceMs, schedule))
    decreases |schedule|
  {
    hide Inv, Step;
    if schedule != [] {
      RunKeepsInv(s, graceMs, schedule[..|schedule| - 1]);
      StepKeepsInv(Run(s, graceMs, schedule[..|schedule| - 1]), graceMs, schedule[|schedule| - 1]);
    }
  }

  lemma InitInv()
    ensures Inv(Init)
  {
  }

  // ------------------------------------------------------------------------ over a run

  /** Ids are never taken back, streams only grow, and what left the table never returns. */
  ghost predicate Later(s: State, t: State) {
    && s.objects.Keys <= t.objects.Keys && s.nextOrdinal <= t.nextOrdinal
    && (forall id :: id in s.objects && id in t.table ==> id in s.table)
    && forall id :: id in s.objects ==> s.objects[id].stream <= t.objects[id].stream
  }

  lemma NarrowingIsLater(s: State, t: State)
    requires Narrows(s, t) && t.table <= s.table && t.nextOrdinal == s.nextOrdinal
    ensures Later(s, t)
  {
  }

  lemma KillShrinksTable(s: State, id: Id)
    ensures AfterKill(s, id).table <= s.table && AfterKill(s, id).nextOrdinal == s.nextOrdinal
  {
  }

  lemma StepIsLater(s: State, graceMs: int, ev: Event)
    requires Inv(s)
    ensures Later(s, Step(s, graceMs, ev))
  {
    hide EntriesOk, SinksOk, NoRepeats, Narrows, Later, AfterKill, Verdict, StillWaiting, Told, Registered, Without, Minus, Plus;
    var t := Step(s, graceMs, ev);
    match ev
    case Open => OpenIsLater(s);
    case Data(id, chunk) => DataIsLater(s, id, chunk);
    case Attach(id, k) => AttachIsLater(s, id, k);
    case Deliver => DeliverIsLater(s);
    case Done(id) =>
      DoneNarrows(s, id);
      if id in s.objects { KillShrinksTable(Noted(s, id, s.objects[id].(state := Exited, settled := true)), id); }
      NarrowingIsLater(s, t);
    case Detach(id, k) =>
      DetachNarrows(s, graceMs, id, k);
      if id in s.objects {
        KillShrinksTable(s.(objects := s.objects[id := s.objects[id].(attaches := Minus(s.objects[id].attaches, k))]), id);
      }
      NarrowingIsLater(s, t);
    case TimerFires(id) =>
      TimerNarrows(s, id);
      if id in s.objects { KillShrinksTable(s.(objects := s.objects[id := s.objects[id].(timer := false)]), id); }
      NarrowingIsLater(s, t);
    case Kill(id) => KillNarrows(s, id); KillShrinksTable(s, id); NarrowingIsLater(s, t);
    case Wait(id, start, test, aborted) => WaitNarrows(s, id, start, test, aborted); NarrowingIsLater(s, t);
    case WaitTimesOut(id, w) => WaitEndNarrows(s, id, w, false); NarrowingIsLater(s, t);
    case Abort(id, w) => WaitEndNarrows(s, id, w, true); NarrowingIsLater(s, t);
  }

  lemma OpenIsLater(s: State)
    requires IdsOk(s)
    ensures Later(s, AfterOpen(s))
  {
    assert s.nextOrdinal + 1 !in s.objects;
  }

  lemma DataIsLater(s: State, id: Id, chunk: seq<Byte>)
    ensures Later(s, AfterData(s, id, chunk))
  {
    hide StillWaiting, Told, ToEach;
  }

  lemma AttachIsLater(s: State, id: Id, k: Sink)
    ensures Later(s, AfterAttach(s, id, k))
  {
  }

  lemma DeliverIsLater(s: State)
    ensures Later(s, AfterDeliver(s))
  {
  }

  lemma {:induction false} RunIsLater(s: State, graceMs: int, schedule: seq<Event>)
    requires Inv(s)
    ensures Later(s, Run(s, graceMs, schedule))
    decreases |schedule|
  {
    hide Inv, Step;
    if schedule != [] {
      var mid := Run(s, graceMs, schedule[..|schedule| - 1]);
      RunIsLater(s, graceMs, schedule[..|schedule| - 1]);
      RunKeepsInv(s, graceMs, schedule[..|schedule| - 1]);
      StepIsLater(mid, graceMs, schedule[|schedule| - 1]);
    }
  }

  lemma {:induction false} RunSplits(s: State, graceMs: int, a: seq<Event>, b: seq<Event>)
    ensures Run(s, graceMs, a + b) == Run(Run(s, graceMs, a), graceMs, b)
    decreases |b|
  {
    hide Step;
    if b == [] {
      assert a + b == a;
    } else {
      var n := |b| - 1;
      assert (a + b)[..|a + b| - 1] == a + b[..n];
      RunSplits(s, graceMs, a, b[..n]);
    }
  }

  /**
   * The lifecycle over every run: an exited terminal an id still finds has a sink, a detached
   * one has none, a pending timer means detached, and a wait goes on only while it has nothing
   * to be told.
   */
  lemma Lifecycles(graceMs: int, schedule: seq<Event>, id: Id)
    ensures var s := Run(Init, graceMs, schedule);
      id in s.table ==>
        && id in s.objects
        && var e := s.objects[id];
        && (e.state.Exited? ==> e.attaches != [] && e.waiters == [])
        && (e.state.Detached? ==> e.attaches == [])
        && (e.timer ==> e.state.Detached?)
        && forall w :: w in e.waiters ==> !w.test(TextFrom(e, w.start).0)
  {
    hide Step, SinksOk, Windowed;
    InitInv();
    RunKeepsInv(Init, graceMs, schedule);
    var s := Run(Init, graceMs, schedule);
    if id in s.table {
      var e := s.objects[id];
      assert EntryOk(e, true);
    }
  }

  /** A killed terminal never comes back, however the run goes on, and holds nothing. */
  lemma KilledStaysKilled(graceMs: int, before: seq<Event>, id: Id, after: seq<Event>)
    requires id in Run(Init, graceMs, before).objects && id !in Run(Init, graceMs, before).table
    ensures var s := Run(Init, graceMs, before + after);
      && id in s.objects && id !in s.table
      && s.objects[id].state.Exited? && s.objects[id].attaches == [] && s.objects[id].waiters == [] && !s.objects[id].timer
      && id in s.terminated && NoRepeats(s.terminated)
  {
    hide Step, SinksOk, Windowed;
    InitInv();
    RunKeepsInv(Init, graceMs, before);
    RunIsLater(Run(Init, graceMs, before), graceMs, after);
    RunKeepsInv(Run(Init, graceMs, before), graceMs, after);
    RunSplits(Init, graceMs, before, after);
    var e := Run(Init, graceMs, before + after).objects[id];
    assert EntryOk(e, false);
  }

  /** Opening always takes an id nobody had before. */
  lemma IdsAreFresh(graceMs: int, schedule: seq<Event>)
    ensures var s := Run(Init, graceMs, schedule);
            var t := Step(s, graceMs, Open);
            t.table - s.table == {s.nextOrdinal + 1} && s.nextOrdinal + 1 !in s.objects
  {
    hide EntriesOk, SinksOk, Run, NoRepeats;
    InitInv();
    RunKeepsInv(Init, graceMs, schedule);
    assert IdsOk(Run(Init, graceMs, schedule));
  }

  lemma ServedInEveryRun(graceMs: int, schedule: seq<Event>, k: Sink)
    ensures var s := Run(Init, graceMs, schedule);
      k in s.sinks && s.sinks[k].joins == 1 ==> Served(s, k)
  {
    hide Step, EntriesOk, Served;
    InitInv();
    RunKeepsInv(Init, graceMs, schedule);
  }

  /** What is remembered of a sink's first attach. */
  ghost predicate JoinedAt(s: State, k: Sink, id: Id, from: int) {
    k in s.sinks && s.sinks[k].joins == 1 && s.sinks[k].entry == id && s.sinks[k].from == from
  }

  lemma StepKeepsJoin(s: State, graceMs: int, ev: Event, k: Sink, id: Id, from: int)
    requires JoinedAt(s, k, id, from) && !(ev.Attach? && ev.sink == k)
    ensures JoinedAt(Step(s, graceMs, ev), k, id, from)
  {
    hide AfterKill, AfterDone, AfterDetach, AfterTimer, AfterWait, AfterWaitEnds, Told, StillWaiting, ToEach;
    match ev
    case Open =>
    case Data(_, _) =>
    case Done(i) => DoneNarrows(s, i);
    case Attach(_, _) =>
    case Detach(i, x) => DetachNarrows(s, graceMs, i, x);
    case TimerFires(i) => TimerNarrows(s, i);
    case Kill(i) => KillNarrows(s, i);
    case Wait(i, start, test, aborted) => WaitNarrows(s, i, start, test, aborted);
    case WaitTimesOut(i, w) => WaitEndNarrows(s, i, w, false);
    case Abort(i, w) => WaitEndNarrows(s, i, w, true);
    case Deliver =>
  }

  lemma {:induction false} RunKeepsJoin(s: State, graceMs: int, schedule: seq<Event>, k: Sink, id: Id, from: int)
    requires JoinedAt(s, k, id, from) && forall ev :: ev in schedule ==> !(ev.Attach? && ev.sink == k)
    ensures JoinedAt(Run(s, graceMs, schedule), k, id, from)
    decreases |schedule|
  {
    hide Step, JoinedAt;
    if schedule != [] {
      var n := |schedule| - 1;
      RunKeepsJoin(s, graceMs, schedule[..n], k, id, from);
      StepKeepsJoin(Run(s, graceMs, schedule[..n]), graceMs, schedule[n], k, id, from);
    }
  }

  /** The terminal lives and the sink is new, so attaching it is accepted and is its first time. */
  ghost predicate MayAttach(s: State, id: Id, k: Sink) {
    id in s.table && id in s.objects && !s.objects[id].state.Exited? && k !in s.sinks
  }

  lemma AttachedJoins(graceMs: int, before: seq<Event>, id: Id, k: Sink, after: seq<Event>)
    requires MayAttach(Run(Init, graceMs, before), id, k)
    requires forall ev :: ev in after ==> !(ev.Attach? && ev.sink == k)
    ensures JoinedAt(Run(Init, graceMs, before + [Attach(id, k)] + after), k, id, Run(Init, graceMs, before).objects[id].dropped)
  {
    hide Run;
    var s := Run(Init, graceMs, before);
    OneEvent(s, graceMs, Attach(id, k));
    RunSplits(Init, graceMs, before, [Attach(id, k)]);
    RunSplits(Init, graceMs, before + [Attach(id, k)], after);
    RunKeepsJoin(AfterAttach(s, id, k), graceMs, after, k, id, s.objects[id].dropped);
  }

  lemma OneEvent(s: State, graceMs: int, ev: Event)
    ensures Run(s, graceMs, [ev]) == Step(s, graceMs, ev)
  {
    hide Step;
    assert [ev][..0] == [];
  }

  /**
   * A sink attached once: what it has received and what is on its way to it are, in every
   * continuation, one contiguous piece of the terminal's stream from `dropped` at the attach
   * onward, and all of it while the sink is attached.
   */
  lemma AttachedSinkIsServed(graceMs: int, before: seq<Event>, id: Id, k: Sink, after: seq<Event>)
    requires MayAttach(Run(Init, graceMs, before), id, k)
    requires forall ev :: ev in after ==> !(ev.Attach? && ev.sink == k)
    ensures var from := Run(Init, graceMs, before).objects[id].dropped;
      var s := Run(Init, graceMs, before + [Attach(id, k)] + after);
      && k in s.sinks && id in s.objects && 0 <= from <= |s.objects[id].stream|
      && var due, got := s.objects[id].stream[from..], s.sinks[k].received + InFlight(s.queue, k);
      && got <= due
      && (k in s.objects[id].attaches ==> got == due)
  {
    hide Run;
    AttachedJoins(graceMs, before, id, k, after);
    ServedInEveryRun(graceMs, before + [Attach(id, k)] + after, k);
  }

  /** Once the deliveries in the queue have been made, nothing is on its way. */
  lemma {:induction false} QueueDrains(s: State, graceMs: int, n: nat)
    requires n <= |s.queue|
    ensures Run(s, graceMs, seq(n, _ => Deliver)).queue == s.queue[n..]
    ensures Run(s, graceMs, seq(n, _ => Deliver)).objects == s.objects
  {
    if n > 0 {
      assert seq(n, _ => Deliver)[..n - 1] == seq(n - 1, _ => Deliver);
      QueueDrains(s, graceMs, n - 1);
    } else {
      assert s.queue[0..] == s.queue;
    }
  }

  /** When the deferred deliveries have run, a sink that is still attached has all of that. */
  lemma DrainedSinkHasAll(graceMs: int, before: seq<Event>, id: Id, k: Sink, after: seq<Event>)
    requires MayAttach(Run(Init, graceMs, before), id, k)
    requires forall ev :: ev in after ==> !(ev.Attach? && ev.sink == k)
    ensures var from := Run(Init, graceMs, before).objects[id].dropped;
      var waiting := |Run(Init, graceMs, before + [Attach(id, k)] + after).queue|;
      var s := Run(Init, graceMs, before + [Attach(id, k)] + (after + seq(waiting, _ => Deliver)));
      && s.queue == [] && k in s.sinks && id in s.objects && 0 <= from <= |s.objects[id].stream|
      && (k in s.objects[id].attaches ==> s.sinks[k].received == s.objects[id].stream[from..])
  {
    hide Run;
    var attached := before + [Attach(id, k)];
    var s0 := Run(Init, graceMs, attached + after);
    var delivers := seq(|s0.queue|, _ => Deliver);
    assert attached + (after + delivers) == attached + after + delivers;
    RunSplits(Init, graceMs, attached + after, delivers);
    QueueDrains(s0, graceMs, |s0.queue|);
    AttachedSinkIsServed(graceMs, before, id, k, after + delivers);
    var s := Run(Init, graceMs, attached + (after + delivers));
    assert s.sinks[k].received + [] == s.sinks[k].received;
  }

  /** A kill touches no other terminal. */
  lemma KillTouchesOne(s: State, id: Id)
    requires id in s.table && s.table <= s.objects.Keys
    ensures var t := AfterKill(s, id);
      && t.table == s.table - {id} && t.objects.Keys == s.objects.Keys
      && forall i :: i in s.objects && i != id ==> t.objects[i] == s.objects[i]
  {
  }

  lemma GoneIsQuiet(s: State, id: Id)
    requires Inv(s) && id in s.objects && id !in s.table
    ensures s.objects[id].state.Exited? && s.objects[id].attaches == [] && id in s.terminated
  {
  }

  /** Every id the table finds has its terminal, and the next id is nobody's. */
  lemma TableIsBacked(s: State)
    requires Inv(s)
    ensures s.table <= s.objects.Keys && s.nextOrdinal + 1 !in s.objects
  {
  }

  lemma NotedTwice(s: State, id: Id, e: Entry)
    ensures Noted(s.(objects := s.objects[id := e]), id, e) == Noted(s, id, e)
  {
  }

  lemma EntryIsWindowed(s: State, id: Id)
    requires Inv(s) && id in s.objects
    ensures Windowed(s.objects[id])
  {
    hide SinksOk, IdsOk, Patient, Lifecycle;
    assert EntryOk(s.objects[id], id in s.table);
  }
}
