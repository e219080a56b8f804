/**
 * Runs in which, moreover, no disconnect or disposal lands during an attempt: one attempt per
 * node, nothing leaks, and nothing is left open. Then one run outside them that leaks.
 */
module ConnectionTidy {
  import opened Prelude
  import opened ConnectionState
  import opened ConnectionRuns
  import opened ConnectionFresh

  /** The event neither interrupts an attempt nor reuses a transport. */
  ghost predicate TidyEvent(s: State, ev: Event) {
    match ev
    case Disconnect(node) => node in s.entries && s.entries[node] in s.objects ==> s.objects[s.entries[node]].pending.None?
    case Dispose => forall n :: n in s.entries && s.entries[n] in s.objects ==> s.objects[s.entries[n]].pending.None?
    case _ => FreshEvent(s, ev)
  }

  ghost predicate TidyRun(limit: nat, schedule: seq<Event>)
    decreases |schedule|
  {
    schedule != [] ==>
      var n := |schedule| - 1;
      TidyRun(limit, schedule[..n]) && TidyEvent(Run(Init, limit, schedule[..n]), schedule[n])
  }

  // ------------------------------------------------------------------ what tidy runs keep

  /** What an entry holds fits its state; an entry outside the table holds nothing. */
  ghost predicate Fits(s: State, r: Ref)
    requires r in s.objects
  {
    var e := s.objects[r];
    if !Tabled(s, r) then e.pending.None? && e.transport.None? && e.live.None?
    else
      match e.state
      case Ready => e.pending.None? && e.live.Some? && e.live.value in s.lives && e.transport == Some(s.lives[e.live.value].transport)
      case Connecting =>
        && e.pending.Some? && e.pending.value in s.attempts
        && var a := s.attempts[e.pending.value];
        && a.ref == r
        && (if a.progress.Dialing? then e.transport == Some(a.progress.t) else a.progress.Opening? && e.transport.None?)
      case _ => e.pending.None? && e.transport.None?
  }

  ghost predicate AllFit(s: State) { forall r :: r in s.objects ==> Fits(s, r) }

  /** An attempt in flight is the one its node's entry waits for. */
  ghost predicate Awaited(s: State, a: AttemptId)
    requires a in s.attempts
  {
    InFlight(s.attempts[a]) ==>
      && s.attempts[a].ref in s.objects && s.objects[s.attempts[a].ref].pending == Some(a)
      && s.attempts[a].record.node in s.entries && s.entries[s.attempts[a].record.node] == s.attempts[a].ref
  }

  ghost predicate AllAwaited(s: State) { forall a :: a in s.attempts ==> Awaited(s, a) }

  ghost predicate Tidy(s: State) { AllFit(s) && AllAwaited(s) }

  // -------------------------------------------------------------- an entry lets go

  /** One entry drops what it holds; the attempt it waited for, if any, is over. */
  ghost predicate LetsGo(s: State, t: State, r: Ref, e: Entry) {
    && t.entries == s.entries && t.home == s.home && t.lives == s.lives
    && r in s.objects && t.objects == s.objects[r := e]
    && e.pending.None? && e.transport.None? && e.live.None? && !e.state.Ready? && !e.state.Connecting?
    && match s.objects[r].pending
       case None => t.attempts == s.attempts
       case Some(a) => a in s.attempts && InFlight(s.attempts[a]) && t.attempts == s.attempts[a := s.attempts[a].(progress := Fell)]
  }

  lemma LettingGoFits(s: State, t: State, r: Ref, e: Entry)
    requires AllFit(s) && LetsGo(s, t, r, e)
    ensures AllFit(t)
  {
  }

  lemma LettingGoIsAwaited(s: State, t: State, r: Ref, e: Entry)
    requires AllAwaited(s) && LetsGo(s, t, r, e)
    ensures AllAwaited(t)
  {
  }

  lemma FailLetsGo(s: State, r: Ref)
    requires Tidy(s) && r in s.objects && s.objects[r].pending.None?
    ensures Tidy(AfterFail(s, r))
  {
    hide AllFit, AllAwaited, AsSet;
    var e := Cleared(s.objects[r]).(state := Failed);
    assert s.objects[r := Cleared(s.objects[r])][r := e] == s.objects[r := e];
    LettingGoFits(s, AfterFail(s, r), r, e);
    LettingGoIsAwaited(s, AfterFail(s, r), r, e);
  }

  lemma AttemptFailsIsTidy(s: State, a: AttemptId)
    requires Tidy(s)
    ensures Tidy(AfterAttemptFails(s, a))
  {
    hide AllFit, AsSet;
    if IsAttempt(s, a) && InFlight(s.attempts[a]) {
      assert Awaited(s, a);
      hide AllAwaited;
      var r := s.attempts[a].ref;
      var e := Cleared(s.objects[r]).(state := Failed);
      assert s.objects[r := Cleared(s.objects[r])][r := e] == s.objects[r := e];
      LettingGoFits(s, AfterAttemptFails(s, a), r, e);
      LettingGoIsAwaited(s, AfterAttemptFails(s, a), r, e);
    }
  }

  lemma DisconnectIsTidy(s: State, node: Node)
    requires Tidy(s) && TidyEvent(s, Disconnect(node))
    ensures Tidy(AfterDisconnect(s, node))
  {
    hide AllFit, AllAwaited, AsSet;
    if node in s.entries && s.entries[node] in s.objects {
      var r := s.entries[node];
      var e := Cleared(s.objects[r]).(recovery := None, state := Disconnected);
      assert s.objects[r := Cleared(s.objects[r])][r := e] == s.objects[r := e];
      LettingGoFits(s, AfterDisconnect(s, node), r, e);
      LettingGoIsAwaited(s, AfterDisconnect(s, node), r, e);
    }
  }

  // --------------------------------------------------------------------------- losses

  /** What entries hold and wait for is the same. */
  ghost predicate SameHoldings(s: State, t: State) {
    && t.entries == s.entries && t.home == s.home && t.lives == s.lives && t.attempts == s.attempts
    && t.objects.Keys == s.objects.Keys
    && forall x :: x in s.objects ==> t.objects[x].(recovery := None) == s.objects[x].(recovery := None)
  }

  lemma SameHoldingsAreTidy(s: State, t: State)
    requires Tidy(s) && SameHoldings(s, t)
    ensures Tidy(t)
  {
    forall x | x in t.objects ensures Fits(t, x) { assert Fits(s, x) && t.objects[x] == s.objects[x].(recovery := t.objects[x].recovery); }
    forall a | a in t.attempts ensures Awaited(t, a) { assert Awaited(s, a); }
  }

  lemma RecoverIsTidy(s: State, r: Ref, record: Record, cause: Cause)
    requires Tidy(s) && r in s.objects
    ensures Tidy(AfterRecover(s, r, record, cause))
  {
    hide Tidy;
    SameHoldingsAreTidy(s, AfterRecover(s, r, record, cause));
  }

  /** An entry that holds a connection, or the transport of one, waits for no attempt. */
  lemma ConnectedAwaitsNone(s: State, limit: nat, l: LiveId)
    requires Inv(s, limit) && Tidy(s) && OwnersOk(s) && IsLive(s, l)
    requires var e := s.objects[s.lives[l].ref]; e.live == Some(l) || e.transport == Some(s.lives[l].transport)
    ensures s.objects[s.lives[l].ref].pending.None?
  {
    hide OwnersOk, AllAwaited, RecoveriesOk, BoundsOk, HoldsOk;
    var r := s.lives[l].ref;
    assert Fits(s, r);
    if s.objects[r].pending.Some? { DialedAreNew(s, s.objects[r].pending.value, l); }
  }

  lemma LossIsTidy(s: State, r: Ref, record: Record, cause: Cause)
    requires Tidy(s) && r in s.objects && s.objects[r].pending.None?
    ensures AfterFail(s, r).objects.Keys == s.objects.Keys
    ensures Tidy(AfterRecover(AfterFail(s, r), r, record, cause))
  {
    hide Tidy, AfterFail, AfterRecover;
    FailLetsGo(s, r);
    FailKeepsObjects(s, r);
    RecoverIsTidy(AfterFail(s, r), r, record, cause);
  }

  lemma RequestFailsIsTidy(s: State, limit: nat, l: LiveId)
    requires Inv(s, limit) && Tidy(s) && OwnersOk(s)
    ensures Tidy(AfterRequestFails(s, l))
  {
    hide Tidy, Inv, OwnersOk, AfterFail, AfterRecover;
    if IsLive(s, l) && s.objects[s.lives[l].ref].live == Some(l) {
      ConnectedAwaitsNone(s, limit, l);
      LossIsTidy(s, s.lives[l].ref, s.lives[l].record, Dropped(l));
    }
  }

  lemma ForwardExitsIsTidy(s: State, limit: nat, l: LiveId)
    requires Inv(s, limit) && Tidy(s) && OwnersOk(s)
    ensures Tidy(AfterForwardExits(s, l))
  {
    hide Tidy, Inv, OwnersOk, AfterFail, AfterRecover;
    if AfterForwardExits(s, l) != s {
      var c := s.lives[l];
      var lost := s.(lost := s.lost + {c.transport});
      ConnectedAwaitsNone(s, limit, l);
      SameHoldingsAreTidy(s, lost);
      LossIsTidy(lost, c.ref, c.record, Exited(c.transport));
    }
  }

  // ------------------------------------------------------------- attempts that go well

  lemma EntryForIsTidy(s: State, node: Node)
    requires Tidy(s) && NamesOk(s)
    ensures Tidy(EntryFor(s, node))
  {
    hide AllFit, AllAwaited;
    EntryForFits(s, node);
    EntryForIsAwaited(s, node);
  }

  lemma EntryForFits(s: State, node: Node)
    requires AllFit(s) && NamesOk(s)
    ensures AllFit(EntryFor(s, node))
  {
    var t := EntryFor(s, node);
    if t != s {
      forall r | r in t.objects ensures Fits(t, r) {
        if r in s.objects { assert Fits(s, r); assert Tabled(t, r) <==> Tabled(s, r); }
      }
    }
  }

  lemma EntryForIsAwaited(s: State, node: Node)
    requires AllAwaited(s) && NamesOk(s)
    ensures AllAwaited(EntryFor(s, node))
  {
  }

  lemma StartIsTidy(s: State, record: Record)
    requires Tidy(s) && NamesOk(s) && AllReadyOk(s) && record.node in s.entries
    ensures Tidy(Started(s, record).0)
  {
    hide AllFit, AllAwaited, TableOk, BoundsOk, HoldsOk, AllReadyOk, Fits;
    var t := Started(s, record).0;
    if t != s {
      FreshEntryHoldsNothing(s, record.node);
      StartFits(s, t, s.entries[record.node]);
      StartIsAwaited(s, t, record);
    }
  }

  /** An entry that is not ready and awaits nothing has no transport. */
  lemma FreshEntryHoldsNothing(s: State, node: Node)
    requires AllFit(s) && TableOk(s) && AllReadyOk(s) && node in s.entries
    ensures Tabled(s, s.entries[node])
    ensures var e := s.objects[s.entries[node]];
            !(e.state.Ready? && e.info.Some?) && e.pending.None? ==> e.transport.None?
  {
  }

  lemma StartIsAwaited(s: State, t: State, record: Record)
    requires AllAwaited(s) && record.node in s.entries && t == Started(s, record).0 && t != s
    ensures AllAwaited(t)
  {
  }

  lemma StartFits(s: State, t: State, r: Ref)
    requires AllFit(s) && BoundsOk(s) && r in s.objects && Tabled(s, r)
    requires s.objects[r].transport.None? && s.objects[r].pending.None?
    requires t.entries == s.entries && t.home == s.home && t.lives == s.lives
    requires t.objects == s.objects[r := s.objects[r].(state := Connecting, pending := Some(s.next))]
    requires exists record :: t.attempts == s.attempts[s.next := Attempt(r, record, Opening)]
    ensures AllFit(t)
  {
  }

  lemma ConnectIsTidy(s: State, limit: nat, record: Record)
    requires Tidy(s) && Inv(s, limit)
    ensures Tidy(AfterConnect(s, record).0)
  {
    hide Tidy, NamesOk, AllReadyOk, RecoveriesOk, Started, EntryFor;
    EntryForKeepsNames(s, record.node);
    EntryForKeepsReady(s, record.node);
    EntryForIsTidy(s, record.node);
    StartIsTidy(EntryFor(s, record.node), record);
  }

  lemma EntryForKeepsReady(s: State, node: Node)
    requires NamesOk(s) && AllReadyOk(s)
    ensures AllReadyOk(EntryFor(s, node))
  {
  }

  lemma AttemptStands(s: State, a: AttemptId)
    requires AllFit(s) && AllAwaited(s) && a in s.attempts && InFlight(s.attempts[a])
    ensures var r := s.attempts[a].ref;
      && r in s.objects && Tabled(s, r) && s.objects[r].pending == Some(a) && s.objects[r].state.Connecting?
      && s.objects[r].transport == (if s.attempts[a].progress.Dialing? then Some(s.attempts[a].progress.t) else None)
  {
  }

  lemma OpenedIsTidy(s: State, a: AttemptId, tr: TransportId, port: nat)
    requires Tidy(s)
    ensures Tidy(AfterOpened(s, a, tr, port))
  {
    hide AllFit, AllAwaited;
    OpenedFits(s, a, tr, port);
    OpenedIsAwaited(s, a, tr, port);
  }

  lemma OpenedFits(s: State, a: AttemptId, tr: TransportId, port: nat)
    requires AllFit(s) && AllAwaited(s)
    ensures AllFit(AfterOpened(s, a, tr, port))
  {
  }

  lemma OpenedIsAwaited(s: State, a: AttemptId, tr: TransportId, port: nat)
    requires AllAwaited(s)
    ensures AllAwaited(AfterOpened(s, a, tr, port))
  {
  }

  lemma HandshakeIsTidy(s: State, a: AttemptId, info: nat)
    requires Tidy(s) && NamesOk(s)
    ensures Tidy(AfterHandshake(s, a, info))
  {
    hide AllFit, AllAwaited, NamesOk;
    NamesBelow(s);
    HandshakeFits(s, a, info);
    HandshakeIsAwaited(s, a, info);
  }

  lemma HandshakeFits(s: State, a: AttemptId, info: nat)
    requires AllFit(s) && AllAwaited(s) && s.next !in s.lives
    ensures AllFit(AfterHandshake(s, a, info))
  {
  }

  lemma HandshakeIsAwaited(s: State, a: AttemptId, info: nat)
    requires AllAwaited(s)
    ensures AllAwaited(AfterHandshake(s, a, info))
  {
  }

  lemma TickIsTidy(s: State, limit: nat, q: RecoveryId)
    requires Tidy(s) && Inv(s, limit)
    ensures Tidy(AfterTick(s, limit, q))
  {
    hide Tidy, NamesOk, AllReadyOk, RecoveriesOk, AfterConnect;
    var t := AfterTick(s, limit, q);
    if t != s {
      ConnectIsTidy(s, limit, s.recoveries[q].record);
      SameHoldingsAreTidy(Ticked(s, limit, q), t);
    }
  }

  lemma ResumeIsTidy(s: State, q: RecoveryId)
    requires Tidy(s)
    ensures Tidy(AfterResume(s, q))
  {
    hide Tidy;
    SameHoldingsAreTidy(s, AfterResume(s, q));
  }

  lemma DisposeIsTidy(s: State)
    requires Tidy(s) && TidyEvent(s, Dispose)
    ensures Tidy(AfterDispose(s))
  {
    DisposeFits(s);
    DisposeIsAwaited(s);
    hide AllFit, AllAwaited, AfterDispose;
  }

  /** Nothing is in flight when nothing is awaited. */
  lemma DisposeIsAwaited(s: State)
    requires AllAwaited(s) && TidyEvent(s, Dispose)
    ensures AllAwaited(AfterDispose(s))
  {
  }

  lemma DisposeFits(s: State)
    requires AllFit(s)
    ensures AllFit(AfterDispose(s))
  {
    var t := AfterDispose(s);
    forall r | r in t.objects ensures Fits(t, r) { assert Fits(s, r); }
  }

  // ----------------------------------------------------------------------- over a run

  lemma StepIsTidy(s: State, limit: nat, ev: Event)
    requires Tidy(s) && Inv(s, limit) && OwnersOk(s) && TidyEvent(s, ev)
    ensures Tidy(Step(s, limit, ev))
  {
    hide Tidy, NamesOk, AllReadyOk, RecoveriesOk, OwnersOk, AfterConnect, AfterHandshake, AfterTick, AfterOpened, AfterAttemptFails,
         AfterResume, AfterDisconnect, AfterDispose, AfterForwardExits, AfterRequestFails;
    match ev
    case Connect(record) => ConnectIsTidy(s, limit, record);
    case TransportOpened(a, t, port) => OpenedIsTidy(s, a, t, port);
    case Handshake(a, info) => HandshakeIsTidy(s, a, info);
    case AttemptFails(a) => AttemptFailsIsTidy(s, a);
    case ForwardExits(l) => ForwardExitsIsTidy(s, limit, l);
    case RequestFails(l) => RequestFailsIsTidy(s, limit, l);
    case RecoveryTick(r) => TickIsTidy(s, limit, r);
    case RecoveryResumes(r) => ResumeIsTidy(s, r);
    case Disconnect(node) => DisconnectIsTidy(s, node);
    case Dispose => DisposeIsTidy(s);
  }

  lemma {:induction false} TidyRunsAreFresh(limit: nat, schedule: seq<Event>)
    requires TidyRun(limit, schedule)
    ensures FreshRun(limit, schedule)
    decreases |schedule|
  {
    hide Run;
    if schedule != [] { TidyRunsAreFresh(limit, schedule[..|schedule| - 1]); }
  }

  lemma {:induction false} TidyRunsAreTidy(limit: nat, schedule: seq<Event>)
    requires TidyRun(limit, schedule)
    ensures Tidy(Run(Init, limit, schedule)) && Accounted(Run(Init, limit, schedule), limit)
    decreases |schedule|
  {
    hide Tidy, Inv, OwnersOk, LossesOk, HeldOk, Step, TidyEvent, FreshRun;
    TidyRunsAreFresh(limit, schedule);
    FreshRunsAreAccounted(limit, schedule);
    if schedule == [] {
      InitIsTidy();
    } else {
      var n := |schedule| - 1;
      TidyRunsAreTidy(limit, schedule[..n]);
      StepIsTidy(Run(Init, limit, schedule[..n]), limit, schedule[n]);
    }
  }

  lemma InitIsTidy()
    ensures Tidy(Init)
  {
  }

  /** At most one attempt per node is in flight. */
  lemma OneAttemptPerNode(limit: nat, schedule: seq<Event>, a: AttemptId, b: AttemptId)
    requires TidyRun(limit, schedule)
    ensures var s := Run(Init, limit, schedule);
      (a in s.attempts && b in s.attempts && InFlight(s.attempts[a]) && InFlight(s.attempts[b])
       && s.attempts[a].record.node == s.attempts[b].record.node) ==> a == b
  {
    hide Run, TidyRun, Accounted, AllFit;
    TidyRunsAreTidy(limit, schedule);
    var s := Run(Init, limit, schedule);
    assert a in s.attempts ==> Awaited(s, a);
    assert b in s.attempts ==> Awaited(s, b);
  }

  /** In a tidy state an attempt that goes on finds its entry free. */
  lemma NothingIsStoredOver(s: State, limit: nat, ev: Event, x: nat)
    requires Tidy(s) && Inv(s, limit)
    ensures !Overwrites(s, ev, x) && !Supplants(s, ev, x)
  {
    hide AllFit, AllAwaited, RecoveriesOk, BoundsOk, HoldsOk;
    if (ev.TransportOpened? || ev.Handshake?) && IsAttempt(s, ev.a) && InFlight(s.attempts[ev.a]) {
      AttemptStands(s, ev.a);
      assert AllReadyOk(s);
    }
  }

  lemma {:induction false} TidyRunsStoreNothingOver(limit: nat, schedule: seq<Event>, x: nat)
    requires TidyRun(limit, schedule)
    ensures !Overwritten(limit, schedule, x) && !Supplanted(limit, schedule, x)
    decreases |schedule|
  {
    hide Run, Tidy, Inv, OwnersOk, LossesOk, HeldOk, TidyEvent, Overwrites, Supplants;
    if schedule != [] {
      var n := |schedule| - 1;
      TidyRunsStoreNothingOver(limit, schedule[..n], x);
      TidyRunsAreTidy(limit, schedule[..n]);
      NothingIsStoredOver(Run(Init, limit, schedule[..n]), limit, schedule[n], x);
    }
  }

  /** Every transport ever opened is closed, or is the one an entry of the table holds, never both. */
  lemma NoTransportLeaks(limit: nat, schedule: seq<Event>, t: TransportId)
    requires TidyRun(limit, schedule)
    ensures var s := Run(Init, limit, schedule);
      t in s.forwards ==>
        (t !in s.closedTransports <==> exists r :: r in s.objects && Tabled(s, r) && s.objects[r].transport == Some(t))
  {
    hide Run, TidyRun, FreshRun, Overwritten, Supplanted, Inv, OwnersOk, LossesOk, AllAwaited;
    TidyRunsAreFresh(limit, schedule);
    TidyRunsAreTidy(limit, schedule);
    TidyRunsStoreNothingOver(limit, schedule, t);
    LeakedExactlyWhenOverwritten(limit, schedule, t);
    var s := Run(Init, limit, schedule);
    assert forall r :: r in s.objects ==> Fits(s, r);
  }

  /** Likewise every connection ever made. */
  lemma NoConnectionIsLeftOpen(limit: nat, schedule: seq<Event>, l: LiveId)
    requires TidyRun(limit, schedule)
    ensures var s := Run(Init, limit, schedule);
      l in s.lives ==>
        (l !in s.closedLives <==> exists r :: r in s.objects && Tabled(s, r) && s.objects[r].live == Some(l))
  {
    hide Run, TidyRun, FreshRun, Overwritten, Supplanted, Accounted, AllAwaited;
    TidyRunsAreTidy(limit, schedule);
    TidyRunsStoreNothingOver(limit, schedule, l);
    AbandonedExactlyWhenSupplanted(limit, schedule, l);
    var s := Run(Init, limit, schedule);
    assert forall r :: r in s.objects ==> Fits(s, r);
  }

  // ------------------------------------------------------------------ a run that leaks

  lemma RunSnoc(limit: nat, schedule: seq<Event>, ev: Event)
    ensures Run(Init, limit, schedule + [ev]) == Step(Run(Init, limit, schedule), limit, ev)
  {
  }

  /** The table of one node, with the attempts and transports its entry has seen. */
  function OneNode(e: Entry, attempts: map<AttemptId, Attempt>, forwards: map<TransportId, AttemptId>, next: nat): State {
    Init.(entries := map[0 := 0], objects := map[0 := e], home := map[0 := 0], attempts := attempts, forwards := forwards, next := next)
  }

  lemma InterruptedConnect(record: Record)
    requires record.node == 0
    ensures Run(Init, 3, [Connect(record), Disconnect(0), Connect(record)])
         == OneNode(Blank.(state := Connecting, pending := Some(2)),
                    map[1 := Attempt(0, record, Opening), 2 := Attempt(0, record, Opening)], map[], 3)
  {
    var first := map[1 := Attempt(0, record, Opening)];
    FirstConnect(record);
    DisconnectDuring(first);
    SecondConnect(record);
    hide Run, Step;
    RunSnoc(3, [], Connect(record));
    RunSnoc(3, [Connect(record)], Disconnect(0));
    RunSnoc(3, [Connect(record), Disconnect(0)], Connect(record));
    assert [] + [Connect(record)] == [Connect(record)];
    assert [Connect(record)] + [Disconnect(0)] == [Connect(record), Disconnect(0)];
    assert [Connect(record), Disconnect(0)] + [Connect(record)] == [Connect(record), Disconnect(0), Connect(record)];
    NothingRun();
  }

  lemma NothingRun()
    ensures Run(Init, 3, []) == Init
  {
  }

  lemma FirstConnect(record: Record)
    requires record.node == 0
    ensures Step(Init, 3, Connect(record))
         == OneNode(Blank.(state := Connecting, pending := Some(1)), map[1 := Attempt(0, record, Opening)], map[], 2)
  {
  }

  lemma DisconnectDuring(first: map<AttemptId, Attempt>)
    ensures Step(OneNode(Blank.(state := Connecting, pending := Some(1)), first, map[], 2), 3, Disconnect(0))
         == OneNode(Blank.(state := Disconnected), first, map[], 2)
  {
  }

  lemma SecondConnect(record: Record)
    requires record.node == 0
    ensures Step(OneNode(Blank.(state := Disconnected), map[1 := Attempt(0, record, Opening)], map[], 2), 3, Connect(record))
         == OneNode(Blank.(state := Connecting, pending := Some(2)),
                    map[1 := Attempt(0, record, Opening), 2 := Attempt(0, record, Opening)], map[], 3)
  {
  }

  lemma BothTransportsOpen(record: Record, s: State)
    requires s == OneNode(Blank.(state := Connecting, pending := Some(2)),
                          map[1 := Attempt(0, record, Opening), 2 := Attempt(0, record, Opening)], map[], 3)
    ensures var t := AfterOpened(AfterOpened(s, 1, 7, 80), 2, 8, 80);
            7 in t.forwards && t.closedTransports == {} && t.objects.Keys == {0} && t.objects[0].transport == Some(8)
  {
  }

  /**
   * Outside tidy runs a transport can leak: when a disconnect lands during an attempt and the
   * node is connected again, both attempts store their transport in the same entry.
   */
  lemma InterruptedAttemptLeaks()
    ensures var record := Record(0, true);
      var s := Run(Init, 3, [Connect(record), Disconnect(0), Connect(record), TransportOpened(1, 7, 80), TransportOpened(2, 8, 80)]);
      Leaked(s, 7)
  {
    hide Run, AfterOpened, AfterConnect;
    var record := Record(0, true);
    var start := [Connect(record), Disconnect(0), Connect(record)];
    InterruptedConnect(record);
    BothTransportsOpen(record, Run(Init, 3, start));
    RunSnoc(3, start, TransportOpened(1, 7, 80));
    RunSnoc(3, start + [TransportOpened(1, 7, 80)], TransportOpened(2, 8, 80));
    assert start + [TransportOpened(1, 7, 80)] + [TransportOpened(2, 8, 80)]
        == [Connect(record), Disconnect(0), Connect(record), TransportOpened(1, 7, 80), TransportOpened(2, 8, 80)];
  }
}
