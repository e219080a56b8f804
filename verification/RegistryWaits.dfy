/** Waits on the terminal registry: each one asked for is answered exactly once, or still waiting. */
module RegistryWaits {
  import opened Prelude
  import opened RegistryState
  import RegistryRuns

  /** How often a wait is among some waiters. */
  function Waiting(ws: seq<Waiter>, n: nat): nat {
    if ws == [] then 0 else Waiting(ws[..|ws| - 1], n) + (if ws[|ws| - 1].id == n then 1 else 0)
  }

  /** How often a wait has been answered. */
  function Answered(answers: seq<Answer>, n: nat): nat {
    if answers == [] then 0 else Answered(answers[..|answers| - 1], n) + (if answers[|answers| - 1].waiter == n then 1 else 0)
  }

  /** A wait is registered with the terminal it was for, or answered: one of the two, once. */
  ghost predicate Accounted(s: State, n: nat) {
    n in s.asked && s.asked[n] in s.objects && Waiting(s.objects[s.asked[n]].waiters, n) + Answered(s.answers, n) == 1
  }

  /** Nobody waits at a terminal for anything else. */
  ghost predicate Expected(s: State, id: Id, n: nat) {
    id in s.objects && Waiting(s.objects[id].waiters, n) > 0 ==> n in s.asked && s.asked[n] == id
  }

  ghost predicate WaitsOk(s: State) {
    && (forall n: nat :: n in s.asked ==> n < s.nextWaiter)
    && (forall n: nat :: n < s.nextWaiter ==> Accounted(s, n))
    && (forall id: Id, n: nat :: Expected(s, id, n))
    && (forall n: nat :: n >= s.nextWaiter ==> Answered(s.answers, n) == 0)
  }

  lemma {:induction false} AnsweredAppend(a: seq<Answer>, b: seq<Answer>, n: nat)
    ensures Answered(a + b, n) == Answered(a, n) + Answered(b, n)
    decreases |b|
  {
    if b == [] {
      assert a + b == a;
    } else {
      assert (a + b)[..|a + b| - 1] == a + b[..|b| - 1];
      AnsweredAppend(a, b[..|b| - 1], n);
    }
  }

  lemma WaiterSnoc(ws: seq<Waiter>, w: Waiter, n: nat)
    ensures Waiting(ws + [w], n) == Waiting(ws, n) + (if w.id == n then 1 else 0)
  {
    assert (ws + [w])[..|ws|] == ws;
  }

  lemma AnswerSnoc(answers: seq<Answer>, a: Answer, n: nat)
    ensures Answered(answers + [a], n) == Answered(answers, n) + (if a.waiter == n then 1 else 0)
  {
    assert (answers + [a])[..|answers|] == answers;
  }

  lemma VerdictNames(e: Entry, w: Waiter)
    ensures Verdict(e, w).Some? ==> Verdict(e, w).value.waiter == w.id
  {
  }

  /** Waking splits the waiters into those still waiting and those told. */
  lemma {:induction false} WakingSplits(e: Entry, ws: seq<Waiter>, n: nat)
    ensures Waiting(StillWaiting(e, ws), n) + Answered(Told(e, ws), n) == Waiting(ws, n)
    decreases |ws|
  {
    hide Verdict;
    if ws != [] {
      var before, last := ws[..|ws| - 1], ws[|ws| - 1];
      WakingSplits(e, before, n);
      VerdictNames(e, last);
      var kept, told := StillWaiting(e, before), Told(e, before);
      assert kept + [] == kept && told + [] == told;
      WaiterSnoc(kept, last, n);
      if Verdict(e, last).Some? { AnswerSnoc(told, Verdict(e, last).value, n); }
    }
  }

  lemma {:induction false} WithoutDrops(ws: seq<Waiter>, id: nat, n: nat)
    ensures Waiting(Without(ws, id), n) == if n == id then 0 else Waiting(ws, n)
    decreases |ws|
  {
    if ws != [] {
      var before, last := ws[..|ws| - 1], ws[|ws| - 1];
      WithoutDrops(before, id, n);
      var kept := Without(before, id);
      assert kept + [] == kept;
      WaiterSnoc(kept, last, n);
    }
  }

  lemma {:induction false} RegisteredWaits(ws: seq<Waiter>, i: nat)
    requires i < |ws|
    ensures Waiting(ws, ws[i].id) > 0
    decreases |ws|
  {
    if i < |ws| - 1 { RegisteredWaits(ws[..|ws| - 1], i); }
  }

  // ------------------------------------------------------------------------- the steps

  /** Nobody was told anything, and every terminal keeps its waiters. */
  ghost predicate SameWaits(s: State, t: State) {
    && t.asked == s.asked && t.nextWaiter == s.nextWaiter && t.answers == s.answers
    && (forall id :: id in s.objects ==> id in t.objects && t.objects[id].waiters == s.objects[id].waiters)
    && forall id :: id in t.objects && id !in s.objects ==> t.objects[id].waiters == []
  }

  lemma SameWaitsKeep(s: State, t: State)
    requires WaitsOk(s) && SameWaits(s, t)
    ensures WaitsOk(t)
  {
    forall n: nat | n < t.nextWaiter ensures Accounted(t, n) { assert Accounted(s, n); }
    forall id: Id, n: nat ensures Expected(t, id, n) { assert Expected(s, id, n); }
  }

  /** A terminal's waiters became other waiters and answers. */
  lemma AnsweringKeeps(s: State, t: State, id: Id, told: seq<Answer>)
    requires WaitsOk(s) && id in s.objects && t.asked == s.asked && t.nextWaiter == s.nextWaiter
    requires t.objects.Keys == s.objects.Keys && forall x :: x in s.objects && x != id ==> t.objects[x].waiters == s.objects[x].waiters
    requires t.answers == s.answers + told
    requires forall n: nat :: Waiting(t.objects[id].waiters, n) + Answered(told, n) == Waiting(s.objects[id].waiters, n)
    ensures WaitsOk(t)
  {
    hide Waiting, Answered;
    forall n: nat ensures Answered(t.answers, n) == Answered(s.answers, n) + Answered(told, n)
    {
      AnsweredAppend(s.answers, told, n);
    }
    forall x: Id, n: nat ensures Expected(t, x, n) {
      assert Expected(s, x, n);
      assert Waiting(t.objects[id].waiters, n) <= Waiting(s.objects[id].waiters, n);
    }
    forall n: nat | n < t.nextWaiter ensures Accounted(t, n) {
      assert Accounted(s, n) && Expected(s, id, n);
    }
    forall n: nat | n >= t.nextWaiter ensures Answered(t.answers, n) == 0 { assert Expected(s, id, n); }
  }

  lemma NotedKeepsWaits(s: State, id: Id, e: Entry)
    requires WaitsOk(s) && id in s.objects && e.waiters == s.objects[id].waiters
    ensures WaitsOk(Noted(s, id, e))
  {
    hide StillWaiting, Told, Waiting, Answered, WaitsOk;
    forall n: nat
      ensures Waiting(StillWaiting(e, e.waiters), n) + Answered(Told(e, e.waiters), n) == Waiting(s.objects[id].waiters, n)
    {
      WakingSplits(e, e.waiters, n);
    }
    AnsweringKeeps(s, Noted(s, id, e), id, Told(e, e.waiters));
  }

  lemma ReplacedKeepsWaits(s: State, id: Id, e: Entry)
    requires WaitsOk(s) && id in s.objects && e.waiters == s.objects[id].waiters
    ensures WaitsOk(s.(objects := s.objects[id := e]))
  {
    hide WaitsOk;
    SameWaitsKeep(s, s.(objects := s.objects[id := e]));
  }

  lemma KillKeepsWaits(s: State, id: Id)
    requires WaitsOk(s)
    ensures WaitsOk(AfterKill(s, id))
  {
    hide WaitsOk, Noted;
    if id in s.table && id in s.objects {
      var e := s.objects[id].(timer := false, attaches := [], state := Exited);
      NotedKeepsWaits(s, id, e);
      SameWaitsKeep(Noted(s, id, e), AfterKill(s, id));
    }
  }

  lemma DoneKeepsWaits(s: State, id: Id)
    requires WaitsOk(s)
    ensures WaitsOk(AfterDone(s, id))
  {
    hide WaitsOk, Noted, AfterKill;
    if id in s.objects && !s.objects[id].settled {
      var e := s.objects[id].(state := Exited, settled := true);
      NotedKeepsWaits(s, id, e);
      KillKeepsWaits(Noted(s, id, e), id);
    }
  }

  lemma DetachKeepsWaits(s: State, graceMs: int, id: Id, k: Sink)
    requires WaitsOk(s)
    ensures WaitsOk(AfterDetach(s, graceMs, id, k))
  {
    hide WaitsOk, AfterKill, Minus;
    if id in s.table && id in s.objects {
      var e := s.objects[id].(attaches := Minus(s.objects[id].attaches, k));
      ReplacedKeepsWaits(s, id, e);
      ReplacedKeepsWaits(s, id, e.(state := Detached, timer := e.timer || graceMs > 0));
      KillKeepsWaits(s.(objects := s.objects[id := e]), id);
    }
  }

  lemma TimerKeepsWaits(s: State, id: Id)
    requires WaitsOk(s)
    ensures WaitsOk(AfterTimer(s, id))
  {
    hide WaitsOk, AfterKill;
    if id in s.objects && s.objects[id].timer {
      ReplacedKeepsWaits(s, id, s.objects[id].(timer := false));
      KillKeepsWaits(s.(objects := s.objects[id := s.objects[id].(timer := false)]), id);
    }
  }

  lemma DataKeepsWaits(s: State, id: Id, chunk: seq<Byte>)
    requires WaitsOk(s)
    ensures WaitsOk(AfterData(s, id, chunk))
  {
    hide WaitsOk, Noted, ToEach;
    if id in s.objects {
      var e := Appended(s.objects[id], chunk);
      NotedKeepsWaits(s, id, e);
      SameWaitsKeep(Noted(s, id, e), AfterData(s, id, chunk));
    }
  }

  lemma OpenKeepsWaits(s: State)
    requires WaitsOk(s) && s.nextOrdinal + 1 !in s.objects
    ensures WaitsOk(AfterOpen(s))
  {
    hide WaitsOk;
    SameWaitsKeep(s, AfterOpen(s));
  }

  /** One more wait, registered or answered at once. */
  lemma NewWaitKeeps(s: State, t: State, id: Id, registered: bool)
    requires WaitsOk(s) && id in s.objects && t.objects.Keys == s.objects.Keys
    requires t.asked == s.asked[s.nextWaiter := id] && t.nextWaiter == s.nextWaiter + 1
    requires forall x :: x in s.objects && x != id ==> t.objects[x].waiters == s.objects[x].waiters
    requires forall n: nat ::
      (Waiting(t.objects[id].waiters, n) == Waiting(s.objects[id].waiters, n) + (if registered && n == s.nextWaiter then 1 else 0))
    requires forall n: nat :: Answered(t.answers, n) == Answered(s.answers, n) + (if !registered && n == s.nextWaiter then 1 else 0)
    ensures WaitsOk(t)
  {
    hide Waiting, Answered;
    forall n: nat | n < t.nextWaiter ensures Accounted(t, n) {
      assert Expected(s, id, n);
      assert n < s.nextWaiter ==> Accounted(s, n);
    }
    forall x: Id, n: nat ensures Expected(t, x, n) { assert Expected(s, x, n); }
  }

  lemma WaitKeepsWaits(s: State, id: Id, start: int, test: seq<Byte> -> bool, aborted: bool)
    requires WaitsOk(s)
    ensures WaitsOk(AfterWait(s, id, start, test, aborted))
  {
    hide Verdict, WaitsOk, Waiting, Answered;
    if id in s.table && id in s.objects {
      var e, w, t := s.objects[id], Waiter(s.nextWaiter, start, test), AfterWait(s, id, start, test, aborted);
      VerdictNames(e, w);
      forall n: nat ensures Waiting(e.waiters + [w], n) == Waiting(e.waiters, n) + (if n == w.id then 1 else 0) {
        WaiterSnoc(e.waiters, w, n);
      }
      var registered := !aborted && Verdict(e, w).None?;
      if !registered {
        var answer := if aborted then Cancelled(w.id) else Verdict(e, w).value;
        forall n: nat ensures Answered(t.answers, n) == Answered(s.answers, n) + (if n == w.id then 1 else 0) {
          AnswerSnoc(s.answers, answer, n);
        }
      }
      NewWaitKeeps(s, t, id, registered);
    }
  }

  /** A timed-out or cancelled wait leaves its terminal and is answered. */
  lemma WaitEndKeepsWaits(s: State, id: Id, waiter: nat, cancelled: bool)
    requires WaitsOk(s)
    ensures WaitsOk(AfterWaitEnds(s, id, waiter, cancelled))
  {
    hide Waiting, Answered, Without, TextFrom, StartOf, WaitsOk;
    if id in s.objects && Registered(s.objects[id], waiter) {
      var e, t := s.objects[id], AfterWaitEnds(s, id, waiter, cancelled);
      var i :| 0 <= i < |e.waiters| && e.waiters[i].id == waiter;
      RegisteredWaits(e.waiters, i);
      OnceRegistered(s, id, waiter);
      var answer := t.answers[|s.answers|];
      forall n: nat ensures Waiting(t.objects[id].waiters, n) + Answered([answer], n) == Waiting(e.waiters, n) {
        WithoutDrops(e.waiters, waiter, n);
        AnswerSnoc([], answer, n);
        NobodyAnswered(n);
        assert [] + [answer] == [answer];
      }
      AnsweringKeeps(s, t, id, [answer]);
    }
  }

  lemma NobodyAnswered(n: nat)
    ensures Answered([], n) == 0
  {
  }

  lemma OnceRegistered(s: State, id: Id, n: nat)
    requires WaitsOk(s) && id in s.objects && Waiting(s.objects[id].waiters, n) > 0
    ensures Waiting(s.objects[id].waiters, n) == 1
  {
    hide Waiting, Answered;
    assert Expected(s, id, n) && Accounted(s, n);
  }

  lemma StepKeepsWaits(s: State, graceMs: int, ev: Event)
    requires WaitsOk(s) && Inv(s)
    ensures WaitsOk(Step(s, graceMs, ev))
  {
    hide WaitsOk, Inv, AfterData, AfterDone, AfterDetach, AfterTimer, AfterKill, AfterWait, AfterWaitEnds, AfterOpen;
    match ev
    case Open => RegistryRuns.TableIsBacked(s); OpenKeepsWaits(s);
    case Data(id, chunk) => DataKeepsWaits(s, id, chunk);
    case Done(id) => DoneKeepsWaits(s, id);
    case Attach(id, k) => SameWaitsKeep(s, Step(s, graceMs, ev));
    case Detach(id, k) => DetachKeepsWaits(s, graceMs, id, k);
    case TimerFires(id) => TimerKeepsWaits(s, id);
    case Kill(id) => KillKeepsWaits(s, id);
    case Wait(id, start, test, aborted) => WaitKeepsWaits(s, id, start, test, aborted);
    case WaitTimesOut(id, w) => WaitEndKeepsWaits(s, id, w, false);
    case Abort(id, w) => WaitEndKeepsWaits(s, id, w, true);
    case Deliver => SameWaitsKeep(s, Step(s, graceMs, ev));
  }

  lemma {:induction false} RunKeepsWaits(graceMs: int, schedule: seq<Event>)
    ensures WaitsOk(Run(Init, graceMs, schedule)) && Inv(Run(Init, graceMs, schedule))
    decreases |schedule|
  {
    hide WaitsOk, Inv, Step;
    if schedule == [] {
      RegistryRuns.InitInv();
      NoWaitsYet();
    } else {
      var n := |schedule| - 1;
      RunKeepsWaits(graceMs, schedule[..n]);
      StepKeepsWaits(Run(Init, graceMs, schedule[..n]), graceMs, schedule[n]);
      RegistryRuns.StepKeepsInv(Run(Init, graceMs, schedule[..n]), graceMs, schedule[n]);
    }
  }

  lemma NoWaitsYet()
    ensures WaitsOk(Init)
  {
  }

  /**
   * In every run each wait ever asked for has been answered once, or is registered once with
   * the terminal it was for, never both; and none is left waiting for an exited terminal.
   */
  lemma EveryWaitEndsOnce(graceMs: int, schedule: seq<Event>, n: nat)
    ensures var s := Run(Init, graceMs, schedule);
      n < s.nextWaiter ==>
        && n in s.asked && s.asked[n] in s.objects
        && Waiting(s.objects[s.asked[n]].waiters, n) + Answered(s.answers, n) == 1
        && (s.objects[s.asked[n]].state.Exited? ==> Answered(s.answers, n) == 1)
  {
    hide Step, SinksOk, IdsOk, Windowed, Lifecycle, Run;
    RunKeepsWaits(graceMs, schedule);
    var s := Run(Init, graceMs, schedule);
    if n < s.nextWaiter {
      assert Accounted(s, n);
      assert EntryOk(s.objects[s.asked[n]], s.asked[n] in s.table);
    }
  }
}
