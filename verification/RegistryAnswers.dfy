/** Waits on the terminal registry: every answer is true of the output and of the wait it answers. */
module RegistryAnswers {
  import opened Prelude
  import opened RegistryState
  import opened RegistryEffects
  import RegistryRuns

  /** The waits that were accepted, in order: the n-th of them is wait n. */
  function Calls(graceMs: int, schedule: seq<Event>): seq<Event> {
    if schedule == [] then []
    else
      var n := |schedule| - 1;
      Calls(graceMs, schedule[..n])
      + if schedule[n].Wait? && schedule[n].id in Run(Init, graceMs, schedule[..n]).table then [schedule[n]] else []
  }

  /**
   * The answer says what the stream held when it was as long as the answer's offset, and its
   * reason is the case: a match is one, an exit has happened, a timeout or an abort came.
   */
  ghost predicate True(s: State, calls: seq<Event>, schedule: seq<Event>, a: Answer) {
    && a.waiter < |calls| && calls[a.waiter].Wait? && calls[a.waiter].id in s.objects
    && var call := calls[a.waiter]; var e := s.objects[call.id];
    && match a
       case Cancelled(n) => call.aborted || Abort(call.id, n) in schedule
       case Answer(n, matched, reason, offset, text) =>
         && !call.aborted && offset <= |e.stream| && text == SeenFrom(e.stream[..offset], call.start)
         && (matched <==> call.test(text)) && (matched <==> reason.Match?)
         && (reason.Exit? ==> e.state.Exited?)
         && (reason.Timeout? ==> WaitTimesOut(call.id, n) in schedule)
  }

  /** A registered wait is the one that was asked for. */
  ghost predicate AsAsked(calls: seq<Event>, id: Id, w: Waiter) {
    w.id < |calls| && calls[w.id] == Wait(id, w.start, w.test, false)
  }

  ghost predicate AnswersOk(s: State, calls: seq<Event>, schedule: seq<Event>) {
    && |calls| == s.nextWaiter
    && (forall id, w :: id in s.objects && w in s.objects[id].waiters ==> AsAsked(calls, id, w))
    && forall a :: a in s.answers ==> True(s, calls, schedule, a)
  }

  // ---------------------------------------------------------------------- what waking tells

  /** Whoever is told was waiting, and is told what is seen from where its search starts. */
  lemma {:induction false} ToldIsTrue(e: Entry, ws: seq<Waiter>)
    requires Windowed(e)
    ensures forall a :: a in Told(e, ws) ==> exists w :: w in ws && IsTold(e, w, a)
    decreases |ws|
  {
    if ws != [] {
      var n := |ws| - 1;
      ToldIsTrue(e, ws[..n]);
      SeenIsText(e, ws[n].start);
      forall a | a in Told(e, ws) ensures exists w :: w in ws && IsTold(e, w, a) {
        if a in Told(e, ws[..n]) {
          var w :| w in ws[..n] && IsTold(e, w, a);
          assert w in ws;
        } else {
          assert IsTold(e, ws[n], a);
        }
      }
    }
  }

  ghost predicate IsTold(e: Entry, w: Waiter, a: Answer) {
    var text := SeenFrom(e.stream, w.start);
    && (w.test(text) || e.state.Exited?)
    && a == Answer(w.id, w.test(text), if w.test(text) then Match else RegistryState.Exit, |e.stream|, text)
  }

  // ------------------------------------------------------------------------- the steps

  /** Streams have only grown, exits stand, and nothing was told; some waiters may have left. */
  ghost predicate Grown(s: State, t: State) {
    && t.nextWaiter == s.nextWaiter && t.answers == s.answers
    && (forall id :: id in s.objects ==>
          && id in t.objects && s.objects[id].stream <= t.objects[id].stream
          && (s.objects[id].state.Exited? ==> t.objects[id].state.Exited?))
    && forall id, w :: id in t.objects && w in t.objects[id].waiters ==> id in s.objects && w in s.objects[id].waiters
  }

  lemma StaysTrue(s: State, t: State, calls: seq<Event>, schedule: seq<Event>, a: Answer)
    requires True(s, calls, schedule, a)
    requires forall id :: id in s.objects ==>
               && id in t.objects && s.objects[id].stream <= t.objects[id].stream
               && (s.objects[id].state.Exited? ==> t.objects[id].state.Exited?)
    ensures True(t, calls, schedule, a)
  {
    hide SeenFrom;
    var call := calls[a.waiter];
    if a.Answer? {
      assert t.objects[call.id].stream[..a.offset] == s.objects[call.id].stream[..a.offset];
    }
  }

  lemma GrowthKeepsAnswers(s: State, t: State, calls: seq<Event>, schedule: seq<Event>)
    requires AnswersOk(s, calls, schedule) && Grown(s, t)
    ensures AnswersOk(t, calls, schedule)
  {
    hide True;
    forall a | a in t.answers ensures True(t, calls, schedule, a) { StaysTrue(s, t, calls, schedule, a); }
  }

  /** One more event, which may have been an accepted wait. */
  lemma LongerKeepsAnswers(s: State, calls: seq<Event>, more: seq<Event>, schedule: seq<Event>, ev: Event)
    requires AnswersOk(s, calls, schedule)
    ensures forall a :: a in s.answers ==> True(s, calls + more, schedule + [ev], a)
    ensures forall id, w :: id in s.objects && w in s.objects[id].waiters ==> AsAsked(calls + more, id, w)
  {
    hide SeenFrom;
    forall a | a in s.answers ensures True(s, calls + more, schedule + [ev], a) {
      assert True(s, calls, schedule, a) && (calls + more)[a.waiter] == calls[a.waiter];
    }
  }

  /** Waking a terminal's waiters after it wrote or ended. */
  lemma NotingKeepsAnswers(s: State, id: Id, e: Entry, calls: seq<Event>, schedule: seq<Event>)
    requires AnswersOk(s, calls, schedule) && id in s.objects && Windowed(e) && e.waiters == s.objects[id].waiters
    requires s.objects[id].stream <= e.stream && (s.objects[id].state.Exited? ==> e.state.Exited?)
    ensures AnswersOk(Noted(s, id, e), calls, schedule)
  {
    hide True, Windowed, Verdict, SeenFrom, IsTold;
    var t := Noted(s, id, e);
    RegistryRuns.WaitingIsPatient(e, e.waiters);
    ToldIsTrue(e, e.waiters);
    forall a | a in t.answers ensures True(t, calls, schedule, a) {
      if a in s.answers {
        StaysTrue(s, t, calls, schedule, a);
      } else {
        var w :| w in e.waiters && IsTold(e, w, a);
        ToldStays(s, id, e, w, calls, schedule, a);
      }
    }
    hide StillWaiting, Told;
  }

  lemma ToldStays(s: State, id: Id, e: Entry, w: Waiter, calls: seq<Event>, schedule: seq<Event>, a: Answer)
    requires id in s.objects && AsAsked(calls, id, w) && IsTold(e, w, a)
    ensures True(Noted(s, id, e), calls, schedule, a)
  {
    hide StillWaiting, Told, SeenFrom;
    assert e.stream[..|e.stream|] == e.stream;
  }

  lemma KillKeepsAnswers(s: State, id: Id, calls: seq<Event>, schedule: seq<Event>)
    requires AnswersOk(s, calls, schedule) && (id in s.table && id in s.objects ==> Windowed(s.objects[id]))
    ensures AnswersOk(AfterKill(s, id), calls, schedule)
  {
    hide AnswersOk, Windowed;
    if id in s.table && id in s.objects {
      var e := s.objects[id].(timer := false, attaches := [], state := Exited);
      RegistryRuns.KilledIsWindowed(s.objects[id]);
      NotingKeepsAnswers(s, id, e, calls, schedule);
      SameRecord(Noted(s, id, e), AfterKill(s, id), calls, schedule);
    }
  }

  lemma SameRecord(s: State, t: State, calls: seq<Event>, schedule: seq<Event>)
    requires AnswersOk(s, calls, schedule) && t.objects == s.objects && t.answers == s.answers && t.nextWaiter == s.nextWaiter
    ensures AnswersOk(t, calls, schedule)
  {
    hide True;
    forall a | a in t.answers ensures True(t, calls, schedule, a) { StaysTrue(s, t, calls, schedule, a); }
  }

  lemma DataKeepsAnswers(s: State, id: Id, chunk: seq<Byte>, calls: seq<Event>, schedule: seq<Event>)
    requires AnswersOk(s, calls, schedule)
    ensures AnswersOk(AfterData(s, id, chunk), calls, schedule)
  {
    hide AnswersOk, Windowed, ToEach;
    if id in s.objects {
      var e := Appended(s.objects[id], chunk);
      RegistryRuns.AppendedIsWindowed(s.objects[id], chunk);
      NotingKeepsAnswers(s, id, e, calls, schedule);
      SameRecord(Noted(s, id, e), AfterData(s, id, chunk), calls, schedule);
    }
  }

  lemma DoneKeepsAnswers(s: State, id: Id, calls: seq<Event>, schedule: seq<Event>)
    requires AnswersOk(s, calls, schedule) && (id in s.objects ==> Windowed(s.objects[id]))
    ensures AnswersOk(AfterDone(s, id), calls, schedule)
  {
    hide AnswersOk, Windowed, AfterKill, Noted;
    if id in s.objects && !s.objects[id].settled {
      var e := s.objects[id].(state := Exited, settled := true);
      RegistryRuns.DoneIsWindowed(s.objects[id]);
      NotingKeepsAnswers(s, id, e, calls, schedule);
      NotedLeaves(s, id, e);
      SameOutputIsWindowed(e, Noted(s, id, e).objects[id]);
      KillKeepsAnswers(Noted(s, id, e), id, calls, schedule);
    }
  }

  lemma SameOutputIsWindowed(e: Entry, f: Entry)
    requires Windowed(e) && SameOutput(e, f)
    ensures Windowed(f)
  {
  }

  /** A terminal whose watchers, valve or waiters change, and nothing else. */
  lemma ReplacingKeepsAnswers(s: State, t: State, id: Id, e: Entry, calls: seq<Event>, schedule: seq<Event>)
    requires AnswersOk(s, calls, schedule) && id in s.objects && t.objects == s.objects[id := e]
    requires SameOutput(s.objects[id], e) && (s.objects[id].state.Exited? ==> e.state.Exited?)
    requires forall w :: w in e.waiters ==> w in s.objects[id].waiters
    requires t.answers == s.answers && t.nextWaiter == s.nextWaiter
    ensures AnswersOk(t, calls, schedule)
  {
    hide AnswersOk;
    GrowthKeepsAnswers(s, t, calls, schedule);
  }

  lemma DetachKeepsAnswers(s: State, graceMs: int, id: Id, k: Sink, calls: seq<Event>, schedule: seq<Event>)
    requires AnswersOk(s, calls, schedule) && (id in s.objects ==> Windowed(s.objects[id]))
    ensures AnswersOk(AfterDetach(s, graceMs, id, k), calls, schedule)
  {
    hide AnswersOk, Windowed, AfterKill, Minus;
    if id in s.table && id in s.objects {
      var e := s.objects[id].(attaches := Minus(s.objects[id].attaches, k));
      var m := s.(objects := s.objects[id := e]);
      ReplacingKeepsAnswers(s, m, id, e, calls, schedule);
      SameOutputIsWindowed(s.objects[id], e);
      KillKeepsAnswers(m, id, calls, schedule);
      if !e.state.Exited? {
        var f := e.(state := Detached, timer := e.timer || graceMs > 0);
        ReplacingKeepsAnswers(s, s.(objects := s.objects[id := f]), id, f, calls, schedule);
      }
    }
  }

  lemma TimerKeepsAnswers(s: State, id: Id, calls: seq<Event>, schedule: seq<Event>)
    requires AnswersOk(s, calls, schedule) && (id in s.objects ==> Windowed(s.objects[id]))
    ensures AnswersOk(AfterTimer(s, id), calls, schedule)
  {
    hide AnswersOk, Windowed, AfterKill;
    if id in s.objects && s.objects[id].timer {
      var e := s.objects[id].(timer := false);
      var m := s.(objects := s.objects[id := e]);
      ReplacingKeepsAnswers(s, m, id, e, calls, schedule);
      SameOutputIsWindowed(s.objects[id], e);
      KillKeepsAnswers(m, id, calls, schedule);
    }
  }

  /** An accepted wait is answered at once or registered, as it was asked for. */
  lemma WaitKeepsAnswers(s: State, id: Id, start: int, test: seq<Byte> -> bool, aborted: bool, calls: seq<Event>, schedule: seq<Event>)
    requires AnswersOk(s, calls, schedule) && id in s.table && id in s.objects && Windowed(s.objects[id])
    ensures var ev := Wait(id, start, test, aborted);
            AnswersOk(AfterWait(s, id, start, test, aborted), calls + [ev], schedule + [ev])
  {
    hide True, SeenFrom, Windowed;
    var ev := Wait(id, start, test, aborted);
    var t := AfterWait(s, id, start, test, aborted);
    LongerKeepsAnswers(s, calls, [ev], schedule, ev);
    forall a | a in t.answers ensures True(t, calls + [ev], schedule + [ev], a) {
      if a in s.answers {
        StaysTrue(s, t, calls + [ev], schedule + [ev], a);
      } else {
        FirstLookIsTrue(s, id, start, test, aborted, calls, schedule, a);
      }
    }
  }

  lemma FirstLookIsTrue(s: State, id: Id, start: int, test: seq<Byte> -> bool, aborted: bool, calls: seq<Event>, schedule: seq<Event>, a: Answer)
    requires |calls| == s.nextWaiter && id in s.table && id in s.objects && Windowed(s.objects[id])
    requires a in AfterWait(s, id, start, test, aborted).answers && a !in s.answers
    ensures var ev := Wait(id, start, test, aborted);
            True(AfterWait(s, id, start, test, aborted), calls + [ev], schedule + [ev], a)
  {
    hide SeenFrom, Windowed;
    var e := s.objects[id];
    SeenIsText(e, start);
    assert e.stream[..|e.stream|] == e.stream;
  }

  lemma {:induction false} StartOfRegistered(ws: seq<Waiter>, waiter: nat)
    requires exists i :: 0 <= i < |ws| && ws[i].id == waiter
    ensures exists w :: w in ws && w.id == waiter && w.start == StartOf(ws, waiter)
  {
    if ws[0].id == waiter {
      assert ws[0] in ws;
    } else {
      var i :| 0 <= i < |ws| && ws[i].id == waiter;
      assert ws[1..][i - 1].id == waiter;
      StartOfRegistered(ws[1..], waiter);
      var w :| w in ws[1..] && w.id == waiter && w.start == StartOf(ws[1..], waiter);
      assert w in ws;
    }
  }

  /** A wait that runs out of time was registered, and nothing it looked for has been seen. */
  lemma WaitEndKeepsAnswers(s: State, id: Id, waiter: nat, cancelled: bool, calls: seq<Event>, schedule: seq<Event>)
    requires AnswersOk(s, calls, schedule) && (id in s.objects ==> Windowed(s.objects[id]) && Patient(s.objects[id]))
    requires (if cancelled then Abort(id, waiter) else WaitTimesOut(id, waiter)) in schedule
    ensures AnswersOk(AfterWaitEnds(s, id, waiter, cancelled), calls, schedule)
  {
    hide True, SeenFrom, Windowed, Patient, Without;
    var t := AfterWaitEnds(s, id, waiter, cancelled);
    if t != s {
      forall a | a in t.answers ensures True(t, calls, schedule, a) {
        if a in s.answers {
          StaysTrue(s, t, calls, schedule, a);
        } else {
          EndIsTrue(s, id, waiter, cancelled, calls, schedule, a);
        }
      }
    }
  }

  lemma EndIsTrue(s: State, id: Id, waiter: nat, cancelled: bool, calls: seq<Event>, schedule: seq<Event>, a: Answer)
    requires id in s.objects && Registered(s.objects[id], waiter) && Windowed(s.objects[id]) && Patient(s.objects[id])
    requires forall w :: w in s.objects[id].waiters ==> AsAsked(calls, id, w)
    requires (if cancelled then Abort(id, waiter) else WaitTimesOut(id, waiter)) in schedule
    requires a in AfterWaitEnds(s, id, waiter, cancelled).answers && a !in s.answers
    ensures True(AfterWaitEnds(s, id, waiter, cancelled), calls, schedule, a)
  {
    hide SeenFrom, Windowed, Without, StartOf;
    var e := s.objects[id];
    StartOfRegistered(e.waiters, waiter);
    var w :| w in e.waiters && w.id == waiter && w.start == StartOf(e.waiters, waiter);
    assert AsAsked(calls, id, w) && Verdict(e, w).None?;
    SeenIsText(e, w.start);
    assert e.stream[..|e.stream|] == e.stream;
  }

  lemma OpenKeepsAnswers(s: State, calls: seq<Event>, schedule: seq<Event>)
    requires AnswersOk(s, calls, schedule) && s.nextOrdinal + 1 !in s.objects
    ensures AnswersOk(AfterOpen(s), calls, schedule)
  {
    hide AnswersOk;
    GrowthKeepsAnswers(s, AfterOpen(s), calls, schedule);
  }

  lemma AttachKeepsAnswers(s: State, id: Id, k: Sink, calls: seq<Event>, schedule: seq<Event>)
    requires AnswersOk(s, calls, schedule)
    ensures AnswersOk(AfterAttach(s, id, k), calls, schedule)
  {
    hide AnswersOk, Plus;
    GrowthKeepsAnswers(s, AfterAttach(s, id, k), calls, schedule);
  }

  // ----------------------------------------------------------------------- over a run

  lemma StepKeepsAnswers(s: State, graceMs: int, ev: Event, calls: seq<Event>, schedule: seq<Event>)
    requires Inv(s) && AnswersOk(s, calls, schedule)
    ensures AnswersOk(Step(s, graceMs, ev), calls + if ev.Wait? && ev.id in s.table then [ev] else [], schedule + [ev])
  {
    hide Inv, AnswersOk, Windowed, Patient, AfterOpen, AfterData, AfterDone, AfterAttach, AfterDetach, AfterTimer, AfterKill, AfterWait,
         AfterWaitEnds, AfterDeliver;
    EntriesAreSeen(s);
    assert calls + [] == calls;
    var later := schedule + [ev];
    EventKeepsAnswers(s, calls, schedule, ev);
    match ev
    case Open => RegistryRuns.TableIsBacked(s); OpenKeepsAnswers(s, calls, later);
    case Data(id, chunk) => DataKeepsAnswers(s, id, chunk, calls, later);
    case Done(id) => DoneKeepsAnswers(s, id, calls, later);
    case Attach(id, k) => AttachKeepsAnswers(s, id, k, calls, later);
    case Detach(id, k) => DetachKeepsAnswers(s, graceMs, id, k, calls, later);
    case TimerFires(id) => TimerKeepsAnswers(s, id, calls, later);
    case Kill(id) => KillKeepsAnswers(s, id, calls, later);
    case Wait(id, start, test, aborted) =>
      RegistryRuns.TableIsBacked(s);
      if id in s.table { WaitKeepsAnswers(s, id, start, test, aborted, calls, schedule); } else { RefusedWait(s, id, start, test, aborted); }
    case WaitTimesOut(id, w) => WaitEndKeepsAnswers(s, id, w, false, calls, later);
    case Abort(id, w) => WaitEndKeepsAnswers(s, id, w, true, calls, later);
    case Deliver => DeliverTellsNobody(s); SameRecord(s, AfterDeliver(s), calls, later);
  }

  lemma EntriesAreSeen(s: State)
    requires Inv(s)
    ensures forall id :: id in s.objects ==> Windowed(s.objects[id]) && Patient(s.objects[id])
  {
    hide SinksOk, IdsOk, Windowed, Patient, Lifecycle;
    forall id | id in s.objects ensures Windowed(s.objects[id]) && Patient(s.objects[id]) {
      assert EntryOk(s.objects[id], id in s.table);
    }
  }

  lemma EventKeepsAnswers(s: State, calls: seq<Event>, schedule: seq<Event>, ev: Event)
    requires AnswersOk(s, calls, schedule)
    ensures AnswersOk(s, calls, schedule + [ev])
  {
    hide True;
    assert calls + [] == calls;
    LongerKeepsAnswers(s, calls, [], schedule, ev);
  }

  lemma RefusedWait(s: State, id: Id, start: int, test: seq<Byte> -> bool, aborted: bool)
    requires id !in s.table
    ensures AfterWait(s, id, start, test, aborted) == s
  {
  }

  lemma DeliverTellsNobody(s: State)
    ensures var t := AfterDeliver(s); t.objects == s.objects && t.answers == s.answers && t.nextWaiter == s.nextWaiter
  {
  }

  /** The terminal lives and holds nothing the wait looks for. */
  ghost predicate NothingToTell(e: Entry, w: Waiter) { !e.state.Exited? && !w.test(SeenFrom(e.stream, w.start)) }

  lemma WaitersAreOwed(graceMs: int, schedule: seq<Event>)
    ensures var s := Run(Init, graceMs, schedule);
      forall id, w :: id in s.objects && w in s.objects[id].waiters ==> NothingToTell(s.objects[id], w)
  {
    hide Run, SeenFrom, Inv;
    RegistryRuns.InitInv();
    RegistryRuns.RunKeepsInv(Init, graceMs, schedule);
    var s := Run(Init, graceMs, schedule);
    EntriesAreSeen(s);
    forall id, w | id in s.objects && w in s.objects[id].waiters
      ensures NothingToTell(s.objects[id], w)
    {
      assert Patient(s.objects[id]);
      SeenIsText(s.objects[id], w.start);
    }
  }

  lemma {:induction false} RunKeepsAnswers(graceMs: int, schedule: seq<Event>)
    ensures AnswersOk(Run(Init, graceMs, schedule), Calls(graceMs, schedule), schedule)
    decreases |schedule|
  {
    hide Step, AnswersOk, Run, Calls, Inv;
    if schedule == [] {
      NothingAnswered(graceMs);
    } else {
      var n := |schedule| - 1;
      RunKeepsAnswers(graceMs, schedule[..n]);
      RegistryRuns.InitInv();
      RegistryRuns.RunKeepsInv(Init, graceMs, schedule[..n]);
      StepKeepsAnswers(Run(Init, graceMs, schedule[..n]), graceMs, schedule[n], Calls(graceMs, schedule[..n]), schedule[..n]);
      OneMoreEvent(graceMs, schedule);
      assert schedule[..n] + [schedule[n]] == schedule;
    }
  }

  lemma NothingAnswered(graceMs: int)
    ensures AnswersOk(Run(Init, graceMs, []), Calls(graceMs, []), [])
  {
  }

  lemma OneMoreEvent(graceMs: int, schedule: seq<Event>)
    requires schedule != []
    ensures var n := |schedule| - 1; var m, ev := Run(Init, graceMs, schedule[..n]), schedule[n];
      && Run(Init, graceMs, schedule) == Step(m, graceMs, ev)
      && Calls(graceMs, schedule) == Calls(graceMs, schedule[..n]) + if ev.Wait? && ev.id in m.table then [ev] else []
  {
    hide Step;
  }

  /**
   * In every run an answer belongs to a wait that was asked for. It quotes what was retained from
   * that wait's offset on when the stream was as long as the answer says, it is a match exactly
   * when that passes the wait's test, and it blames an exit, a timeout or an abort only after one.
   * A wait that is still registered is one that was asked for and has nothing to be told.
   */
  lemma EveryAnswerIsTrue(graceMs: int, schedule: seq<Event>)
    ensures var s := Run(Init, graceMs, schedule); var calls := Calls(graceMs, schedule);
      && |calls| == s.nextWaiter && (forall a :: a in s.answers ==> True(s, calls, schedule, a))
      && forall id, w :: id in s.objects && w in s.objects[id].waiters ==> AsAsked(calls, id, w) && NothingToTell(s.objects[id], w)
  {
    hide Run, Calls, True, AsAsked, NothingToTell;
    RunKeepsAnswers(graceMs, schedule);
    WaitersAreOwed(graceMs, schedule);
  }
}
