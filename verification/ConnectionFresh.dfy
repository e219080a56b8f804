/**
 * Runs in which openers hand out new transports, while disconnects and disposals may land at any
 * moment: one loss is answered once, and a transport leaks exactly when it is overwritten.
 */
module ConnectionFresh {
  import opened Prelude
  import opened ConnectionState
  import opened ConnectionRuns

  ghost predicate FreshEvent(s: State, ev: Event) { ev.TransportOpened? ==> ev.t !in s.forwards }

  ghost predicate FreshRun(limit: nat, schedule: seq<Event>)
    decreases |schedule|
  {
    schedule != [] ==>
      var n := |schedule| - 1;
      FreshRun(limit, schedule[..n]) && FreshEvent(Run(Init, limit, schedule[..n]), schedule[n])
  }

  // -------------------------------------------------------------------------- owners

  /** A transport belongs to the attempt that opened it, and a connection to its attempt. */
  ghost predicate OwnersOk(s: State) {
    && (forall a :: a in s.attempts ==> match s.attempts[a].progress
          case Dialing(t, _) => t in s.forwards && s.forwards[t] == a
          case Succeeded(l, t) => t in s.forwards && s.forwards[t] == a && l in s.lives
          case _ => true)
    && (forall t :: t in s.forwards ==> s.forwards[t] in s.attempts)
    && forall l :: l in s.lives ==>
         && s.lives[l].attempt in s.attempts
         && s.attempts[s.lives[l].attempt].progress == Succeeded(l, s.lives[l].transport)
         && s.attempts[s.lives[l].attempt].ref == s.lives[l].ref
  }

  lemma OwnersAreSame(s: State, t: State)
    requires OwnersOk(s) && t.attempts == s.attempts && t.lives == s.lives && t.forwards == s.forwards
    ensures OwnersOk(t)
  {
  }

  lemma OneConnectionPerForward(s: State, l: LiveId, m: LiveId)
    requires OwnersOk(s) && l in s.lives && m in s.lives && s.lives[l].transport == s.lives[m].transport
    ensures l == m
  {
  }

  /** An attempt that is dialing has no connection yet, and a connection's transport was opened. */
  lemma DialedAreNew(s: State, a: AttemptId, l: LiveId)
    requires OwnersOk(s) && l in s.lives
    ensures s.lives[l].transport in s.forwards
    ensures a in s.attempts && s.attempts[a].progress.Dialing? ==> s.lives[l].transport != s.attempts[a].progress.t
  {
  }

  lemma StartKeepsOwners(s: State, t: State, r: Ref, record: Record)
    requires OwnersOk(s) && s.next !in s.attempts && t.lives == s.lives && t.forwards == s.forwards
    requires t.attempts == s.attempts[s.next := Attempt(r, record, Opening)]
    ensures OwnersOk(t)
  {
  }

  lemma FellKeepsOwners(s: State, t: State, a: AttemptId)
    requires OwnersOk(s) && a in s.attempts && InFlight(s.attempts[a]) && t.lives == s.lives && t.forwards == s.forwards
    requires t.attempts == s.attempts[a := s.attempts[a].(progress := Fell)]
    ensures OwnersOk(t)
  {
  }

  lemma OpenedOwners(s: State, a: AttemptId, tr: TransportId, port: nat)
    requires OwnersOk(s) && tr !in s.forwards
    ensures OwnersOk(AfterOpened(s, a, tr, port))
  {
  }

  lemma HandshakeOwners(s: State, a: AttemptId, info: nat)
    requires OwnersOk(s) && s.next !in s.lives
    ensures OwnersOk(AfterHandshake(s, a, info))
  {
  }

  lemma NamesBelow(s: State)
    requires NamesOk(s)
    ensures s.next !in s.attempts && s.next !in s.lives && s.next !in s.objects && s.next !in s.recoveries
  {
  }

  lemma ConnectOwners(s: State, record: Record)
    requires NamesOk(s) && OwnersOk(s)
    ensures OwnersOk(AfterConnect(s, record).0)
  {
    hide Started, EntryFor, OwnersOk, NamesOk;
    var m := EntryFor(s, record.node);
    EntryForKeepsNames(s, record.node);
    EntryForSameRest(s, record.node);
    OwnersAreSame(s, m);
    NamesBelow(m);
    StartIsOneUpdate(m, record);
    var t := Started(m, record).0;
    if t != m { StartKeepsOwners(m, t, m.entries[record.node], record); }
  }

  lemma EntryForSameRest(s: State, node: Node)
    ensures var t := EntryFor(s, node); t.attempts == s.attempts && t.lives == s.lives && t.forwards == s.forwards
  {
  }

  lemma TickKeepsOwners(s: State, limit: nat, q: RecoveryId)
    requires NamesOk(s) && OwnersOk(s)
    ensures OwnersOk(AfterTick(s, limit, q))
  {
    hide NamesOk, OwnersOk, AfterConnect;
    if AfterTick(s, limit, q) != s {
      ConnectOwners(s, s.recoveries[q].record);
      OwnersAreSame(Ticked(s, limit, q), AfterTick(s, limit, q));
    }
  }

  lemma AttemptFailsKeepsOwners(s: State, a: AttemptId)
    requires OwnersOk(s)
    ensures OwnersOk(AfterAttemptFails(s, a))
  {
    hide OwnersOk;
    if AfterAttemptFails(s, a) != s { FellKeepsOwners(s, AfterAttemptFails(s, a), a); }
  }

  lemma StepKeepsOwners(s: State, limit: nat, ev: Event)
    requires NamesOk(s) && OwnersOk(s) && FreshEvent(s, ev)
    ensures OwnersOk(Step(s, limit, ev))
  {
    hide NamesOk, OwnersOk, AfterConnect, AfterHandshake, AfterOpened, AfterTick, AfterAttemptFails, AsSet, Cleared, Tabled;
    match ev
    case Connect(record) => ConnectOwners(s, record);
    case TransportOpened(a, tr, port) => OpenedOwners(s, a, tr, port);
    case Handshake(a, info) => NamesBelow(s); HandshakeOwners(s, a, info);
    case AttemptFails(a) => AttemptFailsKeepsOwners(s, a);
    case RecoveryTick(q) => TickKeepsOwners(s, limit, q);
    case _ => OwnersAreSame(s, Step(s, limit, ev));
  }

  // -------------------------------------------------------------------------- losses

  /** An answered loss cannot be noticed in the other way: the entry has let go of what it reported. */
  ghost predicate LetGoOf(s: State, cause: Cause) {
    match cause
    case Dropped(l) =>
      && l in s.lives && s.lives[l].ref in s.objects
      && s.objects[s.lives[l].ref].live != Some(l) && s.objects[s.lives[l].ref].transport != Some(s.lives[l].transport)
    case Exited(t) =>
      && (exists l :: l in s.lives && s.lives[l].transport == t)
      && forall l :: l in s.lives && s.lives[l].transport == t && s.lives[l].ref in s.objects ==> s.objects[s.lives[l].ref].live != Some(l)
  }

  /** The loss of this connection has been answered as the exit of its forward. */
  ghost predicate ExitAnswered(s: State, l: LiveId)
    requires l in s.lives
  {
    exists p :: p in s.recoveries && s.recoveries[p].cause == Exited(s.lives[l].transport)
  }

  ghost predicate LossesOk(s: State) {
    && (forall q :: q in s.recoveries ==> LetGoOf(s, s.recoveries[q].cause))
    && forall q :: q in s.recoveries && s.recoveries[q].cause.Dropped? ==> !ExitAnswered(s, s.recoveries[q].cause.l)
  }

  /** The same recoveries, and no entry holds a connection, or its transport, that it did not hold. */
  ghost predicate HoldsNoMore(s: State, t: State) {
    && t.lives == s.lives && s.objects.Keys <= t.objects.Keys
    && t.recoveries.Keys == s.recoveries.Keys && (forall q :: q in s.recoveries ==> t.recoveries[q].cause == s.recoveries[q].cause)
    && forall l :: l in s.lives && s.lives[l].ref in s.objects ==>
         && (t.objects[s.lives[l].ref].live == Some(l) ==> s.objects[s.lives[l].ref].live == Some(l))
         && (t.objects[s.lives[l].ref].transport == Some(s.lives[l].transport)
             ==> s.objects[s.lives[l].ref].transport == Some(s.lives[l].transport))
  }

  lemma HoldingLessKeepsLosses(s: State, t: State)
    requires BoundsOk(s) && LossesOk(s) && HoldsNoMore(s, t)
    ensures LossesOk(t)
  {
    forall q | q in t.recoveries ensures LetGoOf(t, t.recoveries[q].cause) {
      assert LetGoOf(s, s.recoveries[q].cause);
    }
    forall q | q in t.recoveries && t.recoveries[q].cause.Dropped? ensures !ExitAnswered(t, t.recoveries[q].cause.l) {
      assert !ExitAnswered(s, s.recoveries[q].cause.l);
    }
  }

  /** Connecting changes nothing of what is held, and a new entry holds nothing. */
  ghost predicate HoldsTheSame(s: State, t: State) {
    && t.forwards == s.forwards && t.closedTransports == s.closedTransports && t.closedLives == s.closedLives
    && t.lives == s.lives && t.recoveries == s.recoveries && s.objects.Keys <= t.objects.Keys
    && (forall r :: r in s.objects ==> t.objects[r].live == s.objects[r].live && t.objects[r].transport == s.objects[r].transport)
    && (forall r :: r in t.objects && r !in s.objects ==> t.objects[r].live.None? && t.objects[r].transport.None?)
    && forall a :: a in s.attempts ==> a in t.attempts && t.attempts[a] == s.attempts[a]
  }

  lemma EntryForHoldsTheSame(s: State, node: Node)
    requires s.next !in s.objects
    ensures HoldsTheSame(s, EntryFor(s, node))
  {
  }

  lemma StartHoldsTheSame(s: State, record: Record)
    requires s.next !in s.attempts && record.node in s.entries
    ensures HoldsTheSame(s, Started(s, record).0)
  {
    StartIsOneUpdate(s, record);
    hide Started;
  }

  lemma ThenHoldsTheSame(s: State, m: State, t: State)
    requires HoldsTheSame(s, m) && HoldsTheSame(m, t)
    ensures HoldsTheSame(s, t)
  {
  }

  lemma ConnectHoldsTheSame(s: State, record: Record)
    requires NamesOk(s)
    ensures HoldsTheSame(s, AfterConnect(s, record).0)
  {
    hide Started, EntryFor, NamesOk, HoldsTheSame;
    NamesBelow(s);
    EntryForKeepsNames(s, record.node);
    NamesBelow(EntryFor(s, record.node));
    EntryForHoldsTheSame(s, record.node);
    StartHoldsTheSame(EntryFor(s, record.node), record);
    ThenHoldsTheSame(s, EntryFor(s, record.node), AfterConnect(s, record).0);
  }

  lemma HoldingTheSameIsNoMore(s: State, t: State)
    requires HoldsTheSame(s, t)
    ensures HoldsNoMore(s, t)
  {
  }

  lemma OpenedHoldsNoMore(s: State, a: AttemptId, tr: TransportId, port: nat)
    requires OwnersOk(s) && tr !in s.forwards
    ensures HoldsNoMore(s, AfterOpened(s, a, tr, port))
  {
    hide OwnersOk;
    forall l | l in s.lives ensures s.lives[l].transport != tr { DialedAreNew(s, a, l); }
  }

  lemma FailHoldsNoMore(s: State, r: Ref)
    requires r in s.objects
    ensures HoldsNoMore(s, AfterFail(s, r)) && AfterFail(s, r).objects[r].transport.None?
  {
  }

  /** A connection made now is not one whose loss was answered. */
  lemma HandshakeKeepsLosses(s: State, a: AttemptId, info: nat)
    requires NamesOk(s) && OwnersOk(s) && LossesOk(s)
    ensures LossesOk(AfterHandshake(s, a, info))
  {
    hide OwnersOk, NamesOk;
    var t := AfterHandshake(s, a, info);
    if t != s {
      NamesBelow(s);
      forall l | l in s.lives ensures s.lives[l].transport != s.attempts[a].progress.t { DialedAreNew(s, a, l); }
      forall q | q in t.recoveries ensures LetGoOf(t, t.recoveries[q].cause) {
        assert LetGoOf(s, s.recoveries[q].cause);
        if s.recoveries[q].cause.Exited? {
          var l :| l in s.lives && s.lives[l].transport == s.recoveries[q].cause.t;
          assert l in t.lives && t.lives[l].transport == t.recoveries[q].cause.t;
        }
      }
      forall q | q in t.recoveries && t.recoveries[q].cause.Dropped? ensures !ExitAnswered(t, t.recoveries[q].cause.l) {
        assert LetGoOf(s, s.recoveries[q].cause);
        assert !ExitAnswered(s, s.recoveries[q].cause.l);
      }
    }
  }

  /** No recovery answers this loss as it is noticed the other way. */
  ghost predicate NotAnsweredElse(s: State, cause: Cause) {
    match cause
    case Dropped(l) => l in s.lives && !ExitAnswered(s, l)
    case Exited(t) =>
      forall q :: q in s.recoveries && s.recoveries[q].cause.Dropped? && s.recoveries[q].cause.l in s.lives ==>
        s.lives[s.recoveries[q].cause.l].transport != t
  }

  lemma RecoverKeepsLosses(s: State, r: Ref, record: Record, cause: Cause)
    requires NamesOk(s) && LossesOk(s) && r in s.objects && LetGoOf(s, cause) && NotAnsweredElse(s, cause)
    ensures LossesOk(AfterRecover(s, r, record, cause))
  {
    hide NamesOk;
    var t := AfterRecover(s, r, record, cause);
    NamesBelow(s);
    forall q | q in t.recoveries ensures LetGoOf(t, t.recoveries[q].cause) {
      assert q in s.recoveries ==> LetGoOf(s, s.recoveries[q].cause);
    }
    forall q | q in t.recoveries && t.recoveries[q].cause.Dropped? ensures !ExitAnswered(t, t.recoveries[q].cause.l) {
      assert q in s.recoveries ==> LetGoOf(s, s.recoveries[q].cause) && !ExitAnswered(s, s.recoveries[q].cause.l);
    }
  }

  lemma StillNotAnswered(s: State, t: State, cause: Cause)
    requires NotAnsweredElse(s, cause) && t.lives == s.lives && t.recoveries == s.recoveries
    ensures NotAnsweredElse(t, cause)
  {
  }

  lemma HeldIsNotAnswered(s: State, l: LiveId)
    requires LossesOk(s) && IsLive(s, l) && s.objects[s.lives[l].ref].live == Some(l)
    ensures NotAnsweredElse(s, Dropped(l))
  {
    assert forall p :: p in s.recoveries && s.recoveries[p].cause.Exited? ==> LetGoOf(s, s.recoveries[p].cause);
  }

  lemma HeldForwardIsNotAnswered(s: State, l: LiveId)
    requires OwnersOk(s) && LossesOk(s) && IsLive(s, l) && s.objects[s.lives[l].ref].transport == Some(s.lives[l].transport)
    ensures NotAnsweredElse(s, Exited(s.lives[l].transport))
  {
    hide OwnersOk;
    forall q | q in s.recoveries && s.recoveries[q].cause.Dropped? && s.recoveries[q].cause.l in s.lives
      ensures s.lives[s.recoveries[q].cause.l].transport != s.lives[l].transport
    {
      assert LetGoOf(s, s.recoveries[q].cause);
      if s.lives[s.recoveries[q].cause.l].transport == s.lives[l].transport { OneConnectionPerForward(s, l, s.recoveries[q].cause.l); }
    }
  }

  /** An entry that has failed has let go of this connection, however its loss was noticed. */
  lemma FailLetsGoOf(s: State, l: LiveId)
    requires OwnersOk(s) && IsLive(s, l)
    ensures var m := AfterFail(s, s.lives[l].ref); LetGoOf(m, Dropped(l)) && LetGoOf(m, Exited(s.lives[l].transport))
  {
    hide OwnersOk;
    assert l in AfterFail(s, s.lives[l].ref).lives;
    forall k | k in s.lives && s.lives[k].transport == s.lives[l].transport ensures k == l { OneConnectionPerForward(s, l, k); }
  }

  lemma LossKeepsLosses(s: State, l: LiveId, cause: Cause)
    requires NamesOk(s) && OwnersOk(s) && LossesOk(s) && IsLive(s, l) && NotAnsweredElse(s, cause)
    requires cause == Dropped(l) || cause == Exited(s.lives[l].transport)
    ensures AfterFail(s, s.lives[l].ref).objects.Keys == s.objects.Keys
    ensures LossesOk(AfterRecover(AfterFail(s, s.lives[l].ref), s.lives[l].ref, s.lives[l].record, cause))
  {
    hide AfterFail, AfterRecover, NamesOk, OwnersOk, LossesOk, HoldsNoMore, NothingNew, Calm, NotAnsweredElse, LetGoOf;
    var c := s.lives[l];
    var m := AfterFail(s, c.ref);
    FailIsCalm(s, c.ref);
    FailHoldsNoMore(s, c.ref);
    FailAddsNothing(s, c.ref);
    NothingNewKeepsNames(s, m);
    NamesBound(s);
    HoldingLessKeepsLosses(s, m);
    FailLetsGoOf(s, l);
    StillNotAnswered(s, m, cause);
    RecoverKeepsLosses(m, c.ref, c.record, cause);
  }

  lemma NamesBound(s: State)
    requires NamesOk(s)
    ensures BoundsOk(s)
  {
  }

  lemma LostKeepsAll(s: State, t: State)
    requires OwnersOk(s) && LossesOk(s) && t == s.(lost := t.lost)
    ensures OwnersOk(t) && LossesOk(t)
  {
    hide LossesOk;
    OwnersAreSame(s, t);
    LossesAreSame(s, t);
  }

  lemma LossesAreSame(s: State, t: State)
    requires LossesOk(s) && t.lives == s.lives && t.objects == s.objects && t.recoveries == s.recoveries
    ensures LossesOk(t)
  {
  }

  lemma RequestFailsKeepsLosses(s: State, l: LiveId)
    requires NamesOk(s) && OwnersOk(s) && LossesOk(s)
    ensures LossesOk(AfterRequestFails(s, l))
  {
    hide AfterFail, AfterRecover, NamesOk, OwnersOk, LossesOk, NotAnsweredElse;
    if IsLive(s, l) && s.objects[s.lives[l].ref].live == Some(l) {
      HeldIsNotAnswered(s, l);
      LossKeepsLosses(s, l, Dropped(l));
    }
  }

  lemma ForwardExitsKeepsLosses(s: State, l: LiveId)
    requires NamesOk(s) && OwnersOk(s) && LossesOk(s)
    ensures LossesOk(AfterForwardExits(s, l))
  {
    hide AfterFail, AfterRecover, NamesOk, OwnersOk, LossesOk, NotAnsweredElse;
    if AfterForwardExits(s, l) != s {
      var c := s.lives[l];
      var m := s.(lost := s.lost + {c.transport});
      HeldForwardIsNotAnswered(s, l);
      LostKeepsNames(s, c.transport);
      LostKeepsAll(s, m);
      StillNotAnswered(s, m, Exited(c.transport));
      LossKeepsLosses(m, l, Exited(c.transport));
    }
  }

  lemma AttemptFailsKeepsLosses(s: State, a: AttemptId)
    requires NamesOk(s) && LossesOk(s)
    ensures LossesOk(AfterAttemptFails(s, a))
  {
    hide AfterFail, NamesOk, LossesOk;
    if IsAttempt(s, a) && InFlight(s.attempts[a]) {
      var m := s.(attempts := s.attempts[a := s.attempts[a].(progress := Fell)]);
      NamesBound(s);
      HoldingLessKeepsLosses(s, m);
      FailHoldsNoMore(m, s.attempts[a].ref);
      HoldingLessKeepsLosses(m, AfterFail(m, s.attempts[a].ref));
    }
  }

  lemma ConnectKeepsLosses(s: State, record: Record)
    requires NamesOk(s) && LossesOk(s)
    ensures LossesOk(AfterConnect(s, record).0)
  {
    hide *;
    NamesBound(s);
    ConnectHoldsTheSame(s, record);
    HoldingTheSameIsNoMore(s, AfterConnect(s, record).0);
    HoldingLessKeepsLosses(s, AfterConnect(s, record).0);
  }

  lemma StagingKeepsLosses(s: State, t: State)
    requires NamesOk(s) && LossesOk(s) && t == s.(recoveries := t.recoveries) && t.recoveries.Keys == s.recoveries.Keys
    requires forall q :: q in s.recoveries ==> t.recoveries[q].cause == s.recoveries[q].cause
    ensures LossesOk(t)
  {
    hide LossesOk, NamesOk;
    NamesBound(s);
    HoldingLessKeepsLosses(s, t);
  }

  lemma TickKeepsLosses(s: State, limit: nat, q: RecoveryId)
    requires NamesOk(s) && LossesOk(s)
    ensures LossesOk(AfterTick(s, limit, q))
  {
    hide AfterConnect, NamesOk, LossesOk, ConnectAdds;
    var t := AfterTick(s, limit, q);
    if t != s {
      ConnectKeepsLosses(s, s.recoveries[q].record);
      ConnectKeepsNames(s, s.recoveries[q].record);
      ConnectKeepsRecoveries(s, s.recoveries[q].record);
      StagingKeepsLosses(Ticked(s, limit, q), t);
    }
  }

  lemma ResumeHoldsNoMore(s: State, q: RecoveryId)
    ensures HoldsNoMore(s, AfterResume(s, q))
  {
  }

  lemma DisconnectHoldsNoMore(s: State, node: Node)
    ensures HoldsNoMore(s, AfterDisconnect(s, node))
  {
  }

  lemma DisposeHoldsNoMore(s: State)
    ensures HoldsNoMore(s, AfterDispose(s))
  {
  }

  lemma StepKeepsLosses(s: State, limit: nat, ev: Event)
    requires NamesOk(s) && OwnersOk(s) && LossesOk(s) && FreshEvent(s, ev)
    ensures LossesOk(Step(s, limit, ev))
  {
    hide NamesOk, OwnersOk, LossesOk, AfterConnect, AfterHandshake, AfterOpened, AfterTick, AfterAttemptFails, AfterForwardExits,
         AfterRequestFails, AfterDispose, AfterResume, AfterDisconnect;
    var t := Step(s, limit, ev);
    NamesBound(s);
    match ev
    case Connect(record) => ConnectKeepsLosses(s, record);
    case TransportOpened(a, tr, port) => OpenedHoldsNoMore(s, a, tr, port); HoldingLessKeepsLosses(s, t);
    case Handshake(a, info) => HandshakeKeepsLosses(s, a, info);
    case AttemptFails(a) => AttemptFailsKeepsLosses(s, a);
    case ForwardExits(l) => ForwardExitsKeepsLosses(s, l);
    case RequestFails(l) => RequestFailsKeepsLosses(s, l);
    case RecoveryTick(q) => TickKeepsLosses(s, limit, q);
    case RecoveryResumes(q) => ResumeHoldsNoMore(s, q); HoldingLessKeepsLosses(s, t);
    case Disconnect(node) => DisconnectHoldsNoMore(s, node); HoldingLessKeepsLosses(s, t);
    case Dispose => DisposeHoldsNoMore(s); HoldingLessKeepsLosses(s, t);
  }

  // ------------------------------------------------------------ what entries hold open

  /** A held transport is open and was opened for its holder; only opened transports are closed. */
  ghost predicate HeldOk(s: State) {
    && (forall t :: t in s.closedTransports ==> t in s.forwards)
    && forall r :: r in s.objects && s.objects[r].transport.Some? ==>
         var t := s.objects[r].transport.value;
         t in s.forwards && t !in s.closedTransports && s.forwards[t] in s.attempts && s.attempts[s.forwards[t]].ref == r
  }

  /** The transport is open and no entry, in the table or out of it, holds it. */
  ghost predicate Leaked(s: State, t: TransportId) {
    t in s.forwards && t !in s.closedTransports && forall r :: r in s.objects ==> s.objects[r].transport != Some(t)
  }

  /** The transport an attempt has opened lands on an entry that still holds this one. */
  ghost predicate Overwrites(s: State, ev: Event, t: TransportId) {
    && ev.TransportOpened? && IsAttempt(s, ev.a) && s.attempts[ev.a].progress.Opening?
    && s.objects[s.attempts[ev.a].ref].transport == Some(t)
  }

  ghost predicate Overwritten(limit: nat, schedule: seq<Event>, t: TransportId)
    decreases |schedule|
  {
    schedule != [] &&
      var n := |schedule| - 1;
      Overwritten(limit, schedule[..n], t) || Overwrites(Run(Init, limit, schedule[..n]), schedule[n], t)
  }

  /** A held connection is open and was made for its holder; only connections that were made are closed. */
  ghost predicate HeldLivesOk(s: State) {
    && (forall l :: l in s.closedLives ==> l in s.lives)
    && forall r :: r in s.objects && s.objects[r].live.Some? ==>
         s.objects[r].live.value in s.lives && s.objects[r].live.value !in s.closedLives && s.lives[s.objects[r].live.value].ref == r
  }

  /** The connection is open and no entry holds it. */
  ghost predicate Abandoned(s: State, l: LiveId) {
    l in s.lives && l !in s.closedLives && forall r :: r in s.objects ==> s.objects[r].live != Some(l)
  }

  /** The connection an attempt has made lands on an entry that still holds this one. */
  ghost predicate Supplants(s: State, ev: Event, l: LiveId) {
    && ev.Handshake? && IsAttempt(s, ev.a) && s.attempts[ev.a].progress.Dialing?
    && s.objects[s.attempts[ev.a].ref].live == Some(l)
  }

  ghost predicate Supplanted(limit: nat, schedule: seq<Event>, l: LiveId)
    decreases |schedule|
  {
    schedule != [] &&
      var n := |schedule| - 1;
      Supplanted(limit, schedule[..n], l) || Supplants(Run(Init, limit, schedule[..n]), schedule[n], l)
  }

  /** Nothing was opened, and the transports let go of are just those that were closed. */
  ghost predicate ClosesTransports(s: State, t: State) {
    && t.forwards == s.forwards && s.closedTransports <= t.closedTransports && s.objects.Keys <= t.objects.Keys
    && (forall a :: a in s.attempts ==> a in t.attempts && t.attempts[a].ref == s.attempts[a].ref)
    && (forall r :: r in t.objects && t.objects[r].transport.Some? ==> r in s.objects && t.objects[r].transport == s.objects[r].transport)
    && (forall r :: r in s.objects && s.objects[r].transport.Some? && t.objects[r].transport.None? ==>
          s.objects[r].transport.value in t.closedTransports)
    && forall x :: x in t.closedTransports && x !in s.closedTransports ==>
         exists r :: r in s.objects && s.objects[r].transport == Some(x) && t.objects[r].transport.None?
  }

  /** No connection was made, and those let go of are just those that were closed. */
  ghost predicate ClosesLives(s: State, t: State) {
    && t.lives == s.lives && s.closedLives <= t.closedLives && s.objects.Keys <= t.objects.Keys
    && (forall r :: r in t.objects && t.objects[r].live.Some? ==> r in s.objects && t.objects[r].live == s.objects[r].live)
    && (forall r :: r in s.objects && s.objects[r].live.Some? && t.objects[r].live.None? ==>
          s.objects[r].live.value in t.closedLives)
    && forall x :: x in t.closedLives && x !in s.closedLives ==>
         exists r :: r in s.objects && s.objects[r].live == Some(x) && t.objects[r].live.None?
  }

  ghost predicate ClosesWhatItDrops(s: State, t: State) { ClosesTransports(s, t) && ClosesLives(s, t) }

  lemma ClosingAbandonsNothing(s: State, t: State, l: LiveId)
    requires HeldLivesOk(s) && ClosesLives(s, t)
    ensures HeldLivesOk(t) && (Abandoned(t, l) <==> Abandoned(s, l))
  {
  }

  /** One entry takes a new connection. */
  ghost predicate TakesLive(s: State, t: State, r: Ref) {
    && r in s.objects && t.objects.Keys == s.objects.Keys && t.objects[r].live == Some(s.next)
    && (forall q :: q in s.objects && q != r ==> t.objects[q].live == s.objects[q].live)
    && s.next !in s.lives && t.lives.Keys == s.lives.Keys + {s.next} && t.lives[s.next].ref == r && t.closedLives == s.closedLives
    && forall l :: l in s.lives ==> t.lives[l] == s.lives[l]
  }

  lemma HandshakeLands(s: State, a: AttemptId, info: nat)
    requires s.next !in s.lives && AfterHandshake(s, a, info) != s
    ensures IsAttempt(s, a) && TakesLive(s, AfterHandshake(s, a, info), s.attempts[a].ref)
  {
  }

  lemma LandingAbandons(s: State, t: State, r: Ref, l: LiveId)
    requires HeldLivesOk(s) && TakesLive(s, t, r)
    ensures HeldLivesOk(t) && (Abandoned(t, l) <==> Abandoned(s, l) || s.objects[r].live == Some(l))
  {
    assert t.objects[r].live == Some(s.next);
    forall q | q in s.objects && q != r ensures q in t.objects && t.objects[q].live == s.objects[q].live {}
  }

  lemma HandshakeAbandonsTheSupplanted(s: State, a: AttemptId, info: nat, l: LiveId)
    requires NamesOk(s) && HeldLivesOk(s)
    ensures var t := AfterHandshake(s, a, info);
            HeldLivesOk(t) && (Abandoned(t, l) <==> Abandoned(s, l) || Supplants(s, Handshake(a, info), l))
  {
    NamesBelow(s);
    var t := AfterHandshake(s, a, info);
    if t != s {
      HandshakeLands(s, a, info);
      LandingAbandons(s, t, s.attempts[a].ref, l);
    }
    hide NamesOk, AfterHandshake, HeldLivesOk, Abandoned;
  }

  lemma ClosingLeaksNothing(s: State, t: State, x: TransportId)
    requires HeldOk(s) && ClosesTransports(s, t)
    ensures HeldOk(t) && (Leaked(t, x) <==> Leaked(s, x))
  {
  }

  lemma OpenedLeaksTheOverwritten(s: State, a: AttemptId, tr: TransportId, port: nat, x: TransportId)
    requires HeldOk(s) && tr !in s.forwards
    ensures var t := AfterOpened(s, a, tr, port);
            HeldOk(t) && (Leaked(t, x) <==> Leaked(s, x) || Overwrites(s, TransportOpened(a, tr, port), x))
  {
    var t := AfterOpened(s, a, tr, port);
    if t != s {
      var r := s.attempts[a].ref;
      assert r in t.objects && t.objects[r].transport == Some(tr);
      forall q | q in s.objects && q != r ensures q in t.objects && t.objects[q] == s.objects[q] {}
    }
  }

  /** Two states that hold, have opened and have closed the same. */
  ghost predicate SameHeld(s: State, t: State) {
    && t.forwards == s.forwards && t.closedTransports == s.closedTransports && t.objects.Keys == s.objects.Keys
    && t.lives == s.lives && t.closedLives == s.closedLives
    && t.attempts.Keys == s.attempts.Keys && (forall a :: a in s.attempts ==> t.attempts[a].ref == s.attempts[a].ref)
    && forall r :: r in s.objects ==> t.objects[r].transport == s.objects[r].transport && t.objects[r].live == s.objects[r].live
  }

  lemma SameHeldBefore(s: State, m: State, t: State)
    requires SameHeld(s, m) && ClosesWhatItDrops(m, t)
    ensures ClosesWhatItDrops(s, t)
  {
  }

  lemma SameHeldAfter(s: State, m: State, t: State)
    requires ClosesWhatItDrops(s, m) && SameHeld(m, t)
    ensures ClosesWhatItDrops(s, t)
  {
  }

  lemma SameClosesNothing(s: State, t: State)
    requires SameHeld(s, t)
    ensures ClosesWhatItDrops(s, t)
  {
  }

  lemma ClearClosesWhatItDrops(s: State, r: Ref)
    requires r in s.objects
    ensures ClosesWhatItDrops(s, AfterClear(s, r)) && AfterClear(s, r).objects.Keys == s.objects.Keys
  {
  }

  lemma FailClosesWhatItDrops(s: State, r: Ref)
    requires r in s.objects
    ensures ClosesWhatItDrops(s, AfterFail(s, r))
  {
    hide AfterClear, ClosesWhatItDrops;
    ClearClosesWhatItDrops(s, r);
    SameHeldAfter(s, AfterClear(s, r), AfterFail(s, r));
  }

  lemma DisposeClosesWhatItDrops(s: State)
    ensures ClosesWhatItDrops(s, AfterDispose(s))
  {
  }

  lemma AttemptFailsClosesWhatItDrops(s: State, a: AttemptId)
    ensures ClosesWhatItDrops(s, AfterAttemptFails(s, a))
  {
    hide AfterFail, ClosesWhatItDrops;
    SameClosesNothing(s, s);
    if IsAttempt(s, a) && InFlight(s.attempts[a]) {
      var m := s.(attempts := s.attempts[a := s.attempts[a].(progress := Fell)]);
      FailClosesWhatItDrops(m, s.attempts[a].ref);
      SameHeldBefore(s, m, AfterAttemptFails(s, a));
    }
  }

  lemma LossClosesWhatItDrops(s: State, r: Ref, record: Record, cause: Cause)
    requires r in s.objects
    ensures AfterFail(s, r).objects.Keys == s.objects.Keys
    ensures ClosesWhatItDrops(s, AfterRecover(AfterFail(s, r), r, record, cause))
  {
    FailClosesWhatItDrops(s, r);
    FailKeepsObjects(s, r);
    hide AfterFail, ClosesWhatItDrops;
    SameHeldAfter(s, AfterFail(s, r), AfterRecover(AfterFail(s, r), r, record, cause));
  }

  lemma ConnectClosesWhatItDrops(s: State, record: Record)
    requires NamesOk(s)
    ensures ClosesWhatItDrops(s, AfterConnect(s, record).0)
  {
    ConnectHoldsTheSame(s, record);
    hide AfterConnect, NamesOk;
  }

  lemma TickClosesWhatItDrops(s: State, limit: nat, q: RecoveryId)
    requires NamesOk(s)
    ensures ClosesWhatItDrops(s, AfterTick(s, limit, q))
  {
    hide AfterConnect, NamesOk, ClosesWhatItDrops;
    var t := AfterTick(s, limit, q);
    SameClosesNothing(s, s);
    if t != s {
      ConnectClosesWhatItDrops(s, s.recoveries[q].record);
      SameHeldAfter(s, Ticked(s, limit, q), t);
    }
  }

  lemma ForwardExitsClosesWhatItDrops(s: State, l: LiveId)
    ensures ClosesWhatItDrops(s, AfterForwardExits(s, l))
  {
    hide AfterFail, AfterRecover, ClosesWhatItDrops;
    SameClosesNothing(s, s);
    if AfterForwardExits(s, l) != s {
      var c := s.lives[l];
      var lost := s.(lost := s.lost + {c.transport});
      LossClosesWhatItDrops(lost, c.ref, c.record, Exited(c.transport));
      SameHeldBefore(s, lost, AfterForwardExits(s, l));
    }
  }

  lemma DisconnectClosesWhatItDrops(s: State, node: Node)
    ensures ClosesWhatItDrops(s, AfterDisconnect(s, node))
  {
    hide AfterClear, ClosesWhatItDrops;
    SameClosesNothing(s, s);
    if node in s.entries && s.entries[node] in s.objects {
      ClearClosesWhatItDrops(s, s.entries[node]);
      SameHeldAfter(s, AfterClear(s, s.entries[node]), AfterDisconnect(s, node));
    }
  }

  lemma OpeningClosesNothing(s: State, a: AttemptId, tr: TransportId, port: nat)
    ensures ClosesLives(s, AfterOpened(s, a, tr, port))
  {
  }

  lemma HandshakeClosesNothing(s: State, a: AttemptId, info: nat)
    ensures ClosesTransports(s, AfterHandshake(s, a, info))
  {
  }

  lemma StepClosesWhatItDrops(s: State, limit: nat, ev: Event)
    requires NamesOk(s)
    ensures !ev.TransportOpened? ==> ClosesTransports(s, Step(s, limit, ev))
    ensures !ev.Handshake? ==> ClosesLives(s, Step(s, limit, ev))
  {
    hide NamesOk, ClosesTransports, ClosesLives, AfterConnect, AfterAttemptFails, AfterFail, AfterRecover, AfterForwardExits, AfterTick,
         AfterDisconnect, AfterDispose, AfterOpened, AfterHandshake;
    var t := Step(s, limit, ev);
    match ev
    case Connect(record) => ConnectClosesWhatItDrops(s, record);
    case TransportOpened(a, tr, port) => OpeningClosesNothing(s, a, tr, port);
    case Handshake(a, info) => HandshakeClosesNothing(s, a, info);
    case AttemptFails(a) => AttemptFailsClosesWhatItDrops(s, a);
    case ForwardExits(l) => ForwardExitsClosesWhatItDrops(s, l);
    case RequestFails(l) =>
      SameClosesNothing(s, s);
      if t != s { LossClosesWhatItDrops(s, s.lives[l].ref, s.lives[l].record, Dropped(l)); }
    case RecoveryTick(q) => TickClosesWhatItDrops(s, limit, q);
    case RecoveryResumes(q) => SameClosesNothing(s, t);
    case Disconnect(node) => DisconnectClosesWhatItDrops(s, node);
    case Dispose => DisposeClosesWhatItDrops(s);
  }

  // ----------------------------------------------------------------------- over a run

  ghost predicate Accounted(s: State, limit: nat) { Inv(s, limit) && OwnersOk(s) && LossesOk(s) && HeldOk(s) }

  lemma StepKeepsAccounts(s: State, limit: nat, ev: Event, x: TransportId)
    requires Accounted(s, limit) && FreshEvent(s, ev)
    ensures var t := Step(s, limit, ev);
            Accounted(t, limit) && (Leaked(t, x) <==> Leaked(s, x) || Overwrites(s, ev, x))
  {
    hide NamesOk, AllReadyOk, RecoveriesOk, OwnersOk, LossesOk, HeldOk, Leaked, Step, ClosesTransports, ClosesLives;
    StepKeepsInv(s, limit, ev);
    StepKeepsOwners(s, limit, ev);
    StepKeepsLosses(s, limit, ev);
    if ev.TransportOpened? {
      OpenedLeaksTheOverwritten(s, ev.a, ev.t, ev.port, x);
      LandingSteps(s, limit, ev);
    } else {
      StepClosesWhatItDrops(s, limit, ev);
      ClosingLeaksNothing(s, Step(s, limit, ev), x);
    }
  }

  lemma StepKeepsLives(s: State, limit: nat, ev: Event, l: LiveId)
    requires Inv(s, limit) && HeldLivesOk(s)
    ensures var t := Step(s, limit, ev);
            HeldLivesOk(t) && (Abandoned(t, l) <==> Abandoned(s, l) || Supplants(s, ev, l))
  {
    hide NamesOk, AllReadyOk, RecoveriesOk, HeldLivesOk, Abandoned, Step, ClosesTransports, ClosesLives;
    if ev.Handshake? {
      HandshakeAbandonsTheSupplanted(s, ev.a, ev.info, l);
      LandingSteps(s, limit, ev);
    } else {
      StepClosesWhatItDrops(s, limit, ev);
      ClosingAbandonsNothing(s, Step(s, limit, ev), l);
    }
  }

  lemma LandingSteps(s: State, limit: nat, ev: Event)
    ensures ev.TransportOpened? ==> Step(s, limit, ev) == AfterOpened(s, ev.a, ev.t, ev.port)
    ensures ev.Handshake? ==> Step(s, limit, ev) == AfterHandshake(s, ev.a, ev.info)
  {
  }

  lemma InitIsAccounted(limit: nat)
    ensures Accounted(Init, limit) && HeldLivesOk(Init)
    ensures (forall t :: !Leaked(Init, t)) && forall l :: !Abandoned(Init, l)
  {
    InitInv(limit);
  }

  lemma {:induction false} FreshRunsAreAccounted(limit: nat, schedule: seq<Event>)
    requires FreshRun(limit, schedule)
    ensures Accounted(Run(Init, limit, schedule), limit)
    decreases |schedule|
  {
    hide Accounted, Step, FreshEvent;
    if schedule == [] {
      InitIsAccounted(limit);
    } else {
      var n := |schedule| - 1;
      FreshRunsAreAccounted(limit, schedule[..n]);
      StepKeepsAccounts(Run(Init, limit, schedule[..n]), limit, schedule[n], 0);
    }
  }

  /** A transport leaks if and only if, while an entry held it, another was stored in that entry. */
  lemma {:induction false} LeakedExactlyWhenOverwritten(limit: nat, schedule: seq<Event>, t: TransportId)
    requires FreshRun(limit, schedule)
    ensures Leaked(Run(Init, limit, schedule), t) <==> Overwritten(limit, schedule, t)
    decreases |schedule|
  {
    hide Accounted, Leaked, Step, FreshEvent, Overwrites;
    if schedule == [] {
      InitIsAccounted(limit);
    } else {
      var n := |schedule| - 1;
      LeakedExactlyWhenOverwritten(limit, schedule[..n], t);
      FreshRunsAreAccounted(limit, schedule[..n]);
      StepKeepsAccounts(Run(Init, limit, schedule[..n]), limit, schedule[n], t);
    }
  }

  /** Likewise a connection is left open if and only if another was stored over it. */
  lemma {:induction false} AbandonedExactlyWhenSupplanted(limit: nat, schedule: seq<Event>, l: LiveId)
    ensures var s := Run(Init, limit, schedule);
            HeldLivesOk(s) && (Abandoned(s, l) <==> Supplanted(limit, schedule, l))
    decreases |schedule|
  {
    hide Inv, HeldLivesOk, Abandoned, Step, Supplants;
    InitInv(limit);
    if schedule == [] {
      InitIsAccounted(limit);
    } else {
      var n := |schedule| - 1;
      AbandonedExactlyWhenSupplanted(limit, schedule[..n], l);
      RunKeepsInv(Init, limit, schedule[..n]);
      StepKeepsLives(Run(Init, limit, schedule[..n]), limit, schedule[n], l);
    }
  }

  /** Whether a recovery answers the loss of this connection, however it was noticed. */
  ghost predicate Answers(s: State, q: RecoveryId, l: LiveId) {
    && q in s.recoveries && l in s.lives
    && (s.recoveries[q].cause == Dropped(l) || s.recoveries[q].cause == Exited(s.lives[l].transport))
  }

  /** The loss of one connection starts at most one recovery. */
  lemma OneRecoveryPerLoss(limit: nat, schedule: seq<Event>, l: LiveId, q: RecoveryId, p: RecoveryId)
    requires FreshRun(limit, schedule)
    ensures var s := Run(Init, limit, schedule);
      Answers(s, q, l) && Answers(s, p, l) ==> q == p
  {
    hide Run, FreshRun, NamesOk, AllReadyOk, OwnersOk, HeldOk;
    FreshRunsAreAccounted(limit, schedule);
    var s := Run(Init, limit, schedule);
    assert RecoveriesOk(s, limit) && LossesOk(s);
  }
}
