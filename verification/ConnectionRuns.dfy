/** What every run of the connection manager keeps. */
module ConnectionRuns {
  import opened Prelude
  import opened ConnectionState

  // ------------------------------------------------------------------------- names

  /** Nothing was added: the same names, and no entry holds a connection or recovery it did not. */
  ghost predicate NothingNew(s: State, t: State) {
    && t.entries.Keys <= s.entries.Keys && (forall n :: n in t.entries ==> t.entries[n] == s.entries[n])
    && t.home == s.home && t.lives == s.lives && t.next == s.next
    && t.objects.Keys == s.objects.Keys && t.attempts.Keys == s.attempts.Keys && t.recoveries.Keys == s.recoveries.Keys
    && (forall a :: a in s.attempts ==> t.attempts[a].ref == s.attempts[a].ref)
    && (forall r :: r in s.recoveries ==> t.recoveries[r].ref == s.recoveries[r].ref)
    && forall r :: r in s.objects ==> Less(t.objects[r].live, s.objects[r].live) && Less(t.objects[r].recovery, s.objects[r].recovery)
  }

  ghost predicate Less<T>(a: Option<T>, b: Option<T>) { a.Some? ==> a == b }

  lemma NothingNewKeepsNames(s: State, t: State)
    requires NamesOk(s) && NothingNew(s, t)
    ensures NamesOk(t)
  {
  }

  /** One entry was replaced, and none of the names. */
  ghost predicate Replaces(s: State, t: State, r: Ref, e: Entry) {
    && t.entries == s.entries && t.home == s.home && t.lives == s.lives && t.next == s.next
    && t.attempts == s.attempts && t.recoveries == s.recoveries
    && r in s.objects && t.objects == s.objects[r := e]
  }

  lemma ReplacingAddsNothing(s: State, t: State, r: Ref, e: Entry)
    requires Replaces(s, t, r, e)
    requires Less(e.live, s.objects[r].live) && Less(e.recovery, s.objects[r].recovery)
    ensures NothingNew(s, t)
  {
  }

  lemma FailAddsNothing(s: State, r: Ref)
    requires r in s.objects
    ensures NothingNew(s, AfterClear(s, r)) && NothingNew(s, AfterFail(s, r))
  {
    hide NothingNew, AsSet;
    var e := Cleared(s.objects[r]);
    ReplacingAddsNothing(s, AfterClear(s, r), r, e);
    assert s.objects[r := e][r := e.(state := Failed)] == s.objects[r := e.(state := Failed)];
    ReplacingAddsNothing(s, AfterFail(s, r), r, e.(state := Failed));
  }

  lemma RecoverKeepsNames(s: State, r: Ref, record: Record, cause: Cause)
    requires NamesOk(s) && r in s.objects
    ensures NamesOk(AfterRecover(s, r, record, cause))
  {
  }

  /** Connecting may add an entry and an attempt, and changes no more than what is awaited. */
  ghost predicate ConnectAdds(s: State, t: State) {
    && t.recoveries == s.recoveries && t.lost == s.lost && t.lives == s.lives
    && t.closedTransports == s.closedTransports && t.closedLives == s.closedLives && t.forwards == s.forwards
    && s.next <= t.next && s.objects.Keys <= t.objects.Keys
    && (forall r :: r in s.objects ==> t.objects[r].live == s.objects[r].live && t.objects[r].recovery == s.objects[r].recovery)
    && forall r :: r in t.objects && r !in s.objects ==> t.objects[r].live.None? && t.objects[r].recovery.None?
  }

  lemma EntryForKeepsNames(s: State, node: Node)
    requires NamesOk(s)
    ensures var t := EntryFor(s, node); NamesOk(t) && node in t.entries && ConnectAdds(s, t)
  {
    hide TableOk, BoundsOk, HoldsOk, ConnectAdds;
    EntryForKeepsTable(s, node);
    EntryForKeepsHolds(s, node);
    EntryForAdds(s, node);
  }

  lemma EntryForKeepsTable(s: State, node: Node)
    requires TableOk(s) && BoundsOk(s)
    ensures var t := EntryFor(s, node); TableOk(t) && BoundsOk(t) && node in t.entries
  {
  }

  lemma EntryForKeepsHolds(s: State, node: Node)
    requires HoldsOk(s)
    ensures HoldsOk(EntryFor(s, node))
  {
  }

  lemma EntryForAdds(s: State, node: Node)
    requires BoundsOk(s)
    ensures ConnectAdds(s, EntryFor(s, node))
  {
  }

  lemma ConnectKeepsNames(s: State, record: Record)
    requires NamesOk(s)
    ensures var t := AfterConnect(s, record).0; NamesOk(t) && ConnectAdds(s, t)
  {
    hide EntryFor, NamesOk, Started;
    EntryForKeepsNames(s, record.node);
    StartKeepsNames(EntryFor(s, record.node), record);
  }

  lemma StartKeepsNames(s: State, record: Record)
    requires NamesOk(s) && record.node in s.entries
    ensures var t := Started(s, record).0; NamesOk(t) && ConnectAdds(s, t)
  {
    hide Started;
    StartChangesLittle(s, record);
    var t := Started(s, record).0;
    assert TableOk(t) && HoldsOk(t);
  }

  /** Starting an attempt changes one entry's state and what it waits for. */
  lemma StartChangesLittle(s: State, record: Record)
    requires record.node in s.entries
    ensures var t := Started(s, record).0;
      && t.entries == s.entries && t.home == s.home && t.lives == s.lives && t.recoveries == s.recoveries && t.lost == s.lost
      && t.closedTransports == s.closedTransports && t.closedLives == s.closedLives && t.forwards == s.forwards
      && s.next <= t.next && t.objects.Keys == s.objects.Keys
      && (forall r :: r in s.objects ==> t.objects[r].live == s.objects[r].live && t.objects[r].recovery == s.objects[r].recovery)
      && (forall a :: a in t.attempts ==> ((a in s.attempts && t.attempts[a] == s.attempts[a])
            || (a == s.next < t.next && s.entries[record.node] in s.objects && t.attempts[a].ref == s.entries[record.node])))
  {
    StartIsOneUpdate(s, record);
    hide Started;
  }

  /** A state in which the entry waits for one new attempt, or the same state. */
  lemma StartIsOneUpdate(s: State, record: Record)
    requires record.node in s.entries
    ensures var t, r := Started(s, record).0, s.entries[record.node];
      || t == s
      || (r in s.objects
          && t == s.(objects := s.objects[r := s.objects[r].(state := Connecting, pending := Some(s.next))],
                     attempts := s.attempts[s.next := Attempt(r, record, Opening)],
                     next := s.next + 1))
  {
  }

  lemma HandshakeKeepsNames(s: State, a: AttemptId, info: nat)
    requires NamesOk(s)
    ensures NamesOk(AfterHandshake(s, a, info))
  {
  }

  lemma LossKeepsNames(s: State, r: Ref, record: Record, cause: Cause)
    requires NamesOk(s) && r in s.objects
    ensures NamesOk(AfterRecover(AfterFail(s, r), r, record, cause))
  {
    hide AfterFail, NamesOk, AfterRecover;
    FailAddsNothing(s, r);
    NothingNewKeepsNames(s, AfterFail(s, r));
    RecoverKeepsNames(AfterFail(s, r), r, record, cause);
  }

  lemma OpenedAddsNothing(s: State, a: AttemptId, t: TransportId, port: nat)
    ensures NothingNew(s, AfterOpened(s, a, t, port))
  {
    hide NothingNew;
    if IsAttempt(s, a) && s.attempts[a].progress.Opening? {
      var r := s.attempts[a].ref;
      var m := s.(objects := s.objects[r := s.objects[r].(transport := Some(t))]);
      ReplacingAddsNothing(s, m, r, m.objects[r]);
      DialingAddsNothing(s, m, a, t, port);
    } else {
      SameAddsNothing(s);
    }
  }

  lemma SameAddsNothing(s: State)
    ensures NothingNew(s, s)
  {
  }

  /** Only the progress of one attempt and the forwards changed. */
  lemma DialingAddsNothing(s: State, m: State, a: AttemptId, t: TransportId, port: nat)
    requires NothingNew(s, m) && m.attempts == s.attempts && a in s.attempts
    ensures NothingNew(s, m.(attempts := s.attempts[a := s.attempts[a].(progress := Dialing(t, port))], forwards := s.forwards[t := a]))
  {
  }

  lemma AttemptFailsAddsNothing(s: State, a: AttemptId)
    ensures NothingNew(s, AfterAttemptFails(s, a))
  {
    hide AfterFail;
    if IsAttempt(s, a) && InFlight(s.attempts[a]) {
      FailAddsNothing(s.(attempts := s.attempts[a := s.attempts[a].(progress := Fell)]), s.attempts[a].ref);
    }
  }

  lemma ResumeAddsNothing(s: State, r: RecoveryId)
    ensures NothingNew(s, AfterResume(s, r))
  {
  }

  lemma DisconnectAddsNothing(s: State, node: Node)
    ensures NothingNew(s, AfterDisconnect(s, node))
  {
    hide AfterClear;
    if node in s.entries && s.entries[node] in s.objects { FailAddsNothing(s, s.entries[node]); }
  }

  lemma DisposeAddsNothing(s: State)
    ensures NothingNew(s, AfterDispose(s))
  {
  }

  lemma StagingAddsNothing(s: State, t: State)
    requires t == s.(recoveries := t.recoveries) && t.recoveries.Keys == s.recoveries.Keys
    requires forall q :: q in s.recoveries ==> t.recoveries[q].ref == s.recoveries[q].ref
    ensures NothingNew(s, t)
  {
  }

  lemma TickKeepsNames(s: State, limit: nat, r: RecoveryId)
    requires NamesOk(s)
    ensures NamesOk(AfterTick(s, limit, r))
  {
    hide AfterConnect, NamesOk, NothingNew, ConnectAdds;
    var t := AfterTick(s, limit, r);
    if t != s {
      var rec := s.recoveries[r];
      ConnectKeepsNames(s, rec.record);
      ConnectKeepsRecoveries(s, rec.record);
      var m := if rec.made >= limit || s.objects[rec.ref].recovery != Some(r) then s else AfterConnect(s, rec.record).0;
      StagingAddsNothing(m, t);
      NothingNewKeepsNames(m, t);
    }
  }

  lemma ConnectKeepsRecoveries(s: State, record: Record)
    requires ConnectAdds(s, AfterConnect(s, record).0)
    ensures AfterConnect(s, record).0.recoveries == s.recoveries
  {
  }

  lemma LostKeepsNames(s: State, t: TransportId)
    requires NamesOk(s)
    ensures NamesOk(s.(lost := s.lost + {t}))
  {
  }

  lemma StepKeepsNames(s: State, limit: nat, ev: Event)
    requires NamesOk(s)
    ensures NamesOk(Step(s, limit, ev))
  {
    hide NamesOk, AfterConnect, AfterHandshake, AfterFail, AfterRecover, AfterTick, AfterOpened, AfterAttemptFails, AfterResume,
         AfterDisconnect, AfterDispose, NothingNew;
    match ev
    case Connect(record) => ConnectKeepsNames(s, record);
    case Handshake(a, info) => HandshakeKeepsNames(s, a, info);
    case ForwardExits(l) =>
      if IsLive(s, l) {
        LostKeepsNames(s, s.lives[l].transport);
        LossKeepsNames(s.(lost := s.lost + {s.lives[l].transport}), s.lives[l].ref, s.lives[l].record, Exited(s.lives[l].transport));
      }
    case RequestFails(l) =>
      if IsLive(s, l) { LossKeepsNames(s, s.lives[l].ref, s.lives[l].record, Dropped(l)); }
    case RecoveryTick(r) => TickKeepsNames(s, limit, r);
    case TransportOpened(a, t, port) => OpenedAddsNothing(s, a, t, port); NothingNewKeepsNames(s, Step(s, limit, ev));
    case AttemptFails(a) => AttemptFailsAddsNothing(s, a); NothingNewKeepsNames(s, Step(s, limit, ev));
    case RecoveryResumes(r) => ResumeAddsNothing(s, r); NothingNewKeepsNames(s, Step(s, limit, ev));
    case Disconnect(node) => DisconnectAddsNothing(s, node); NothingNewKeepsNames(s, Step(s, limit, ev));
    case Dispose => DisposeAddsNothing(s); NothingNewKeepsNames(s, Step(s, limit, ev));
  }

  // ----------------------------------------------------------------- ready entries

  /** The entries of the table are the same but for one, which is as it should be. */
  lemma OneChanged(s: State, t: State, r: Ref)
    requires AllReadyOk(s)
    requires forall n :: n in t.entries ==> n in s.entries && t.entries[n] == s.entries[n]
    requires forall x :: x in t.objects && x != r ==> x in s.objects && t.objects[x] == s.objects[x]
    requires r in t.objects && (ReadyOk(t.objects[r]) || (r in s.objects && (ReadyOk(s.objects[r]) ==> ReadyOk(t.objects[r]))))
    ensures AllReadyOk(t)
  {
  }

  lemma FailedIsNotReady(s: State, r: Ref)
    requires AllReadyOk(s) && r in s.objects
    ensures AllReadyOk(AfterFail(s, r)) && !AfterFail(s, r).objects[r].state.Ready?
  {
  }

  lemma LossKeepsReady(s: State, r: Ref, record: Record, cause: Cause)
    requires AllReadyOk(s) && r in s.objects
    ensures AllReadyOk(AfterRecover(AfterFail(s, r), r, record, cause))
  {
  }

  lemma ConnectKeepsReady(s: State, record: Record)
    requires NamesOk(s) && AllReadyOk(s)
    ensures AllReadyOk(AfterConnect(s, record).0)
  {
    var m := EntryFor(s, record.node);
    assert AllReadyOk(m);
    StartKeepsReady(m, record);
    hide Started, EntryFor;
  }

  lemma StartKeepsReady(s: State, record: Record)
    requires AllReadyOk(s) && record.node in s.entries
    ensures AllReadyOk(Started(s, record).0)
  {
  }

  lemma TickKeepsReady(s: State, limit: nat, r: RecoveryId)
    requires NamesOk(s) && AllReadyOk(s)
    ensures AllReadyOk(AfterTick(s, limit, r))
  {
    hide AfterConnect, NamesOk;
    if r in s.recoveries { ConnectKeepsReady(s, s.recoveries[r].record); }
  }

  lemma StepKeepsReady(s: State, limit: nat, ev: Event)
    requires NamesOk(s) && AllReadyOk(s)
    ensures AllReadyOk(Step(s, limit, ev))
  {
    hide NamesOk, AllReadyOk, AfterConnect, AfterFail, AfterRecover, AfterTick;
    var t := Step(s, limit, ev);
    match ev
    case Connect(record) => ConnectKeepsReady(s, record);
    case TransportOpened(a, _, _) => if t != s { OneChanged(s, t, s.attempts[a].ref); }
    case Handshake(a, _) => if t != s { OneChanged(s, t, s.attempts[a].ref); }
    case AttemptFails(a) =>
      if t != s {
        var m := s.(attempts := s.attempts[a := s.attempts[a].(progress := Fell)]);
        SameEntriesReady(s, m);
        FailedIsNotReady(m, s.attempts[a].ref);
      }
    case ForwardExits(l) =>
      if t != s {
        var m := s.(lost := s.lost + {s.lives[l].transport});
        SameEntriesReady(s, m);
        LossKeepsReady(m, s.lives[l].ref, s.lives[l].record, Exited(s.lives[l].transport));
      }
    case RequestFails(l) => if t != s { LossKeepsReady(s, s.lives[l].ref, s.lives[l].record, Dropped(l)); }
    case RecoveryTick(r) => TickKeepsReady(s, limit, r);
    case RecoveryResumes(r) => SameEntriesReady(s, t);
    case Disconnect(node) => if t != s { OneChanged(s, t, s.entries[node]); }
    case Dispose => NoEntriesReady(t);
  }

  lemma SameEntriesReady(s: State, t: State)
    requires AllReadyOk(s) && t.entries == s.entries && t.objects == s.objects
    ensures AllReadyOk(t)
  {
  }

  lemma NoEntriesReady(s: State)
    requires s.entries == map[]
    ensures AllReadyOk(s)
  {
  }

  // ------------------------------------------------------------------- recoveries

  /** No recovery was started, and what was answered stays answered. */
  ghost predicate Calm(s: State, t: State) {
    && s.lost <= t.lost && (forall l :: l in s.lives ==> l in t.lives && t.lives[l] == s.lives[l])
    && (forall r :: r in s.objects ==> r in t.objects && (t.objects[r].live.Some? ==>
          t.objects[r].live == s.objects[r].live || t.objects[r].live.value !in s.lives))
    && t.recoveries.Keys == s.recoveries.Keys
    && forall r :: r in s.recoveries ==> t.recoveries[r].cause == s.recoveries[r].cause
  }

  lemma CalmKeepsRecoveries(s: State, t: State, limit: nat)
    requires RecoveriesOk(s, limit) && Calm(s, t)
    requires forall r :: r in t.recoveries ==> t.recoveries[r].made <= limit
    ensures RecoveriesOk(t, limit)
  {
  }

  lemma CalmFacts(s: State, t: State)
    requires Calm(s, t)
    ensures t.recoveries.Keys == s.recoveries.Keys
    ensures forall r :: r in s.recoveries ==> t.recoveries[r].cause == s.recoveries[r].cause
  {
  }

  lemma FailIsCalm(s: State, r: Ref)
    requires r in s.objects
    ensures Calm(s, AfterFail(s, r)) && Calm(s, AfterClear(s, r)) && AfterFail(s, r).objects[r].live.None?
    ensures AfterFail(s, r).recoveries == s.recoveries && AfterFail(s, r).objects.Keys == s.objects.Keys
    ensures AfterFail(s, r).lives == s.lives && AfterFail(s, r).lost == s.lost
  {
  }

  lemma RecoverAnswers(s: State, r: Ref, record: Record, cause: Cause, limit: nat)
    requires RecoveriesOk(s, limit) && Spent(s, cause) && s.next !in s.recoveries && r in s.objects
    requires forall q :: q in s.recoveries ==> s.recoveries[q].cause != cause
    ensures RecoveriesOk(AfterRecover(s, r, record, cause), limit)
  {
  }

  lemma LossAnswers(s: State, r: Ref, record: Record, cause: Cause, limit: nat)
    requires NamesOk(s) && RecoveriesOk(s, limit) && r in s.objects
    requires cause.Dropped? ==> cause.l in s.lives && s.lives[cause.l].ref == r && s.objects[r].live == Some(cause.l)
    requires cause.Exited? ==> cause.t in s.lost && forall q :: q in s.recoveries ==> s.recoveries[q].cause != cause
    ensures RecoveriesOk(AfterRecover(AfterFail(s, r), r, record, cause), limit)
  {
    hide AfterFail, AfterRecover, Calm;
    var m := AfterFail(s, r);
    FailIsCalm(s, r);
    FailAddsNothing(s, r);
    CalmKeepsRecoveries(s, m, limit);
    assert forall q :: q in s.recoveries ==> Spent(s, s.recoveries[q].cause);
    assert m.next == s.next;
    RecoverAnswers(m, r, record, cause, limit);
  }

  lemma ConnectIsCalm(s: State, record: Record)
    requires NamesOk(s)
    ensures Calm(s, AfterConnect(s, record).0) && AfterConnect(s, record).0.recoveries == s.recoveries
  {
    ConnectKeepsNames(s, record);
    hide AfterConnect, NamesOk;
  }

  lemma TickKeepsRecoveries(s: State, limit: nat, r: RecoveryId)
    requires NamesOk(s) && RecoveriesOk(s, limit)
    ensures RecoveriesOk(AfterTick(s, limit, r), limit)
  {
    hide AfterConnect, NamesOk, Spent;
    var t := AfterTick(s, limit, r);
    if t != s {
      ConnectIsCalm(s, s.recoveries[r].record);
      assert Calm(s, t);
      CalmKeepsRecoveries(s, t, limit);
    }
  }

  lemma HandshakeIsCalm(s: State, a: AttemptId, info: nat)
    requires NamesOk(s)
    ensures Calm(s, AfterHandshake(s, a, info)) && AfterHandshake(s, a, info).recoveries == s.recoveries
  {
  }

  lemma OpenedIsCalm(s: State, a: AttemptId, t: TransportId, port: nat)
    ensures Calm(s, AfterOpened(s, a, t, port)) && AfterOpened(s, a, t, port).recoveries == s.recoveries
  {
  }

  lemma ResumeIsCalm(s: State, r: RecoveryId)
    ensures Calm(s, AfterResume(s, r))
    ensures forall q :: q in s.recoveries ==> AfterResume(s, r).recoveries[q].made == s.recoveries[q].made
  {
  }

  lemma DisposeIsCalm(s: State)
    ensures Calm(s, AfterDispose(s))
  {
  }

  lemma DisconnectIsCalm(s: State, node: Node)
    ensures Calm(s, AfterDisconnect(s, node)) && AfterDisconnect(s, node).recoveries == s.recoveries
  {
  }

  lemma LostIsCalm(s: State, t: TransportId, limit: nat)
    requires RecoveriesOk(s, limit)
    ensures RecoveriesOk(s.(lost := s.lost + {t}), limit)
    ensures t !in s.lost ==> forall q :: q in s.recoveries ==> s.recoveries[q].cause != Exited(t)
  {
  }

  lemma StepKeepsRecoveries(s: State, limit: nat, ev: Event)
    requires NamesOk(s) && RecoveriesOk(s, limit)
    ensures RecoveriesOk(Step(s, limit, ev), limit)
  {
    hide NamesOk, Calm, Spent, AfterConnect, AfterFail, AfterRecover, AfterTick, AfterHandshake, AfterOpened, AfterResume,
         AfterDispose, AfterDisconnect, AfterAttemptFails;
    var t := Step(s, limit, ev);
    match ev
    case Connect(record) => ConnectIsCalm(s, record); CalmKeepsRecoveries(s, t, limit);
    case TransportOpened(a, tr, port) => OpenedIsCalm(s, a, tr, port); CalmKeepsRecoveries(s, t, limit);
    case Handshake(a, info) => HandshakeIsCalm(s, a, info); CalmKeepsRecoveries(s, t, limit);
    case AttemptFails(a) => AttemptFailsAnswersNothing(s, limit, a);
    case ForwardExits(l) =>
      if t != s {
        var c := s.lives[l];
        var m := s.(lost := s.lost + {c.transport});
        LostIsCalm(s, c.transport, limit);
        LostKeepsNames(s, c.transport);
        LossAnswers(m, c.ref, c.record, Exited(c.transport), limit);
      }
    case RequestFails(l) =>
      if t != s { LossAnswers(s, s.lives[l].ref, s.lives[l].record, Dropped(l), limit); }
    case RecoveryTick(r) => TickKeepsRecoveries(s, limit, r);
    case RecoveryResumes(r) =>
      ResumeIsCalm(s, r);
      CalmFacts(s, t);
      CalmKeepsRecoveries(s, t, limit);
    case Disconnect(node) => DisconnectIsCalm(s, node); CalmKeepsRecoveries(s, t, limit);
    case Dispose => DisposeIsCalm(s); DisposeKeepsRecoveries(s); CalmKeepsRecoveries(s, t, limit);
  }

  lemma AttemptFailsAnswersNothing(s: State, limit: nat, a: AttemptId)
    requires RecoveriesOk(s, limit)
    ensures RecoveriesOk(AfterAttemptFails(s, a), limit)
  {
    hide RecoveriesOk, Calm, AfterFail;
    if IsAttempt(s, a) && InFlight(s.attempts[a]) {
      var m := s.(attempts := s.attempts[a := s.attempts[a].(progress := Fell)]);
      FailIsCalm(m, s.attempts[a].ref);
      SameRecoveries(s, m, limit);
      BoundedRecoveries(m, limit);
      CalmKeepsRecoveries(m, AfterAttemptFails(s, a), limit);
    }
  }

  lemma BoundedRecoveries(s: State, limit: nat)
    requires RecoveriesOk(s, limit)
    ensures forall r :: r in s.recoveries ==> s.recoveries[r].made <= limit
  {
  }

  lemma DisposeKeepsRecoveries(s: State)
    ensures AfterDispose(s).recoveries == s.recoveries
  {
  }

  lemma SameRecoveries(s: State, t: State, limit: nat)
    requires RecoveriesOk(s, limit)
    requires t.recoveries == s.recoveries && t.lives == s.lives && t.objects == s.objects && t.lost == s.lost
    ensures RecoveriesOk(t, limit)
  {
  }

  /** What a tick does beside moving its recovery on. */
  ghost function Ticked(s: State, limit: nat, q: RecoveryId): State
    requires q in s.recoveries
  {
    var rec := s.recoveries[q];
    if rec.made >= limit || rec.ref !in s.objects || s.objects[rec.ref].recovery != Some(q) then s else AfterConnect(s, rec.record).0
  }

  // ----------------------------------------------------------------------- over a run

  lemma StepKeepsInv(s: State, limit: nat, ev: Event)
    requires Inv(s, limit)
    ensures Inv(Step(s, limit, ev), limit)
  {
    hide NamesOk, AllReadyOk, RecoveriesOk, Step;
    StepKeepsNames(s, limit, ev);
    StepKeepsReady(s, limit, ev);
    StepKeepsRecoveries(s, limit, ev);
  }

  lemma {:induction false} RunKeepsInv(s: State, limit: nat, schedule: seq<Event>)
    requires Inv(s, limit)
    ensures Inv(Run(s, limit, schedule), limit)
    decreases |schedule|
  {
    hide Inv, Step;
    if schedule != [] {
      RunKeepsInv(s, limit, schedule[..|schedule| - 1]);
      StepKeepsInv(Run(s, limit, schedule[..|schedule| - 1]), limit, schedule[|schedule| - 1]);
    }
  }

  lemma InitInv(limit: nat)
    ensures Inv(Init, limit)
  {
  }

  /** In every reachable state a node is ready exactly when it holds all a connection needs. */
  lemma ReadyMeansConnected(limit: nat, schedule: seq<Event>, node: Node)
    ensures var s := Run(Init, limit, schedule);
      node in s.entries ==>
        && s.entries[node] in s.objects
        && var e := s.objects[s.entries[node]];
        && (e.state.Ready? <==> e.published.Some? && e.live.Some? && e.info.Some? && e.record.Some?)
        && (e.state.Ready? ==> e.published == e.live && (e.localPort.Some? <==> e.record.value.ssh))
        && (!e.state.Ready? ==> e.published.None? && e.live.None? && e.info.None? && e.record.None? && e.localPort.None?)
  {
    hide Run, RecoveriesOk, BoundsOk, HoldsOk;
    InitInv(limit);
    RunKeepsInv(Init, limit, schedule);
    var s := Run(Init, limit, schedule);
    assert AllReadyOk(s) && TableOk(s);
  }

  /** Recoveries are bounded, and no two answer the same loss. */
  lemma RecoveriesAreBounded(limit: nat, schedule: seq<Event>, r: RecoveryId, q: RecoveryId)
    ensures var s := Run(Init, limit, schedule);
      r in s.recoveries ==>
        && s.recoveries[r].made <= limit
        && (q in s.recoveries && q != r ==> s.recoveries[q].cause != s.recoveries[r].cause)
  {
    hide Run, NamesOk, AllReadyOk;
    InitInv(limit);
    RunKeepsInv(Init, limit, schedule);
    assert RecoveriesOk(Run(Init, limit, schedule), limit);
  }

  // ------------------------------------------------------- disconnecting ends the retries

  /**
   * The event is a loss of the connection the entry holds. Reports about a connection or a
   * transport it has let go of, such as those a disconnect itself provokes, are none.
   */
  ghost predicate Drops(s: State, ev: Event, r: Ref) {
    && (ev.ForwardExits? || ev.RequestFails?) && IsLive(s, ev.l) && s.lives[ev.l].ref == r
    && (ev.RequestFails? ==> s.objects[r].live == Some(ev.l))
    && (ev.ForwardExits? ==>
          s.lives[ev.l].transport !in s.lost && s.objects[r].transport == Some(s.lives[ev.l].transport))
  }

  ghost predicate NoDrops(s: State, limit: nat, schedule: seq<Event>, r: Ref)
    decreases |schedule|
  {
    schedule != [] ==>
      var n := |schedule| - 1;
      NoDrops(s, limit, schedule[..n], r) && !Drops(Run(s, limit, schedule[..n]), schedule[n], r)
  }

  /** Nobody is to retry this entry, and nobody has tried since. */
  ghost predicate Unmoved(s: State, t: State, r: Ref) {
    && r in t.objects && t.objects[r].recovery.None?
    && forall q :: q in t.recoveries && t.recoveries[q].ref == r ==>
         q in s.recoveries && s.recoveries[q].ref == r && t.recoveries[q].made == s.recoveries[q].made
  }

  lemma NothingNewIsUnmoved(s: State, t: State, r: Ref)
    requires r in s.objects && s.objects[r].recovery.None? && NothingNew(s, t)
    requires forall q :: q in t.recoveries ==> t.recoveries[q].made == s.recoveries[q].made
    ensures Unmoved(s, t, r)
  {
  }

  lemma LossElsewhereIsUnmoved(s: State, c: Ref, record: Record, cause: Cause, r: Ref)
    requires r in s.objects && s.objects[r].recovery.None? && c in s.objects && c != r
    ensures Unmoved(s, AfterRecover(AfterFail(s, c), c, record, cause), r)
  {
  }

  lemma TickIsUnmoved(s: State, limit: nat, q: RecoveryId, r: Ref)
    requires NamesOk(s) && r in s.objects && s.objects[r].recovery.None?
    ensures Unmoved(s, AfterTick(s, limit, q), r)
  {
    hide AfterConnect, NamesOk;
    if q in s.recoveries { ConnectKeepsNames(s, s.recoveries[q].record); }
  }

  lemma StepIsUnmoved(s: State, limit: nat, ev: Event, r: Ref)
    requires NamesOk(s) && r in s.objects && s.objects[r].recovery.None? && !Drops(s, ev, r)
    ensures Unmoved(s, Step(s, limit, ev), r)
  {
    hide NamesOk, NothingNew, Unmoved, AfterConnect, AfterHandshake, AfterFail, AfterRecover, AfterTick, AfterOpened,
         AfterAttemptFails, AfterResume, AfterDisconnect, AfterDispose;
    var t := Step(s, limit, ev);
    match ev
    case Connect(record) => ConnectIsUnmoved(s, record, r);
    case TransportOpened(a, tr, port) => OpenedAddsNothing(s, a, tr, port); OpenedIsCalm(s, a, tr, port); NothingNewIsUnmoved(s, t, r);
    case Handshake(a, info) => HandshakeIsUnmoved(s, a, info, r);
    case AttemptFails(a) => AttemptFailsAddsNothing(s, a); AttemptFailsKeepsRecoveries(s, a); NothingNewIsUnmoved(s, t, r);
    case ForwardExits(l) => LossIsUnmoved(s, limit, ev, r);
    case RequestFails(l) => LossIsUnmoved(s, limit, ev, r);
    case RecoveryTick(q) => TickIsUnmoved(s, limit, q, r);
    case RecoveryResumes(q) =>
      ResumeAddsNothing(s, q);
      ResumeIsCalm(s, q);
      CalmFacts(s, t);
      NothingNewIsUnmoved(s, t, r);
    case Disconnect(node) => DisconnectAddsNothing(s, node); DisconnectIsCalm(s, node); NothingNewIsUnmoved(s, t, r);
    case Dispose => DisposeAddsNothing(s); DisposeKeepsRecoveries(s); NothingNewIsUnmoved(s, t, r);
  }

  lemma ConnectIsUnmoved(s: State, record: Record, r: Ref)
    requires NamesOk(s) && r in s.objects && s.objects[r].recovery.None?
    ensures Unmoved(s, AfterConnect(s, record).0, r)
  {
    ConnectKeepsNames(s, record);
    hide AfterConnect, NamesOk;
  }

  lemma HandshakeIsUnmoved(s: State, a: AttemptId, info: nat, r: Ref)
    requires r in s.objects && s.objects[r].recovery.None?
    ensures Unmoved(s, AfterHandshake(s, a, info), r)
  {
  }

  lemma AttemptFailsKeepsRecoveries(s: State, a: AttemptId)
    ensures AfterAttemptFails(s, a).recoveries == s.recoveries
  {
  }

  lemma LossIsUnmoved(s: State, limit: nat, ev: Event, r: Ref)
    requires (ev.ForwardExits? || ev.RequestFails?) && r in s.objects && s.objects[r].recovery.None? && !Drops(s, ev, r)
    ensures Unmoved(s, Step(s, limit, ev), r)
  {
    hide AfterFail, AfterRecover, Unmoved;
    var t := Step(s, limit, ev);
    if t == s {
      NothingHappened(s, r);
    } else {
      var c := s.lives[ev.l];
      var m := if ev.ForwardExits? then s.(lost := s.lost + {c.transport}) else s;
      LossElsewhereIsUnmoved(m, c.ref, c.record, if ev.ForwardExits? then Exited(c.transport) else Dropped(ev.l), r);
      SameBefore(s, m, t, r);
    }
  }

  lemma NothingHappened(s: State, r: Ref)
    requires r in s.objects && s.objects[r].recovery.None?
    ensures Unmoved(s, s, r)
  {
  }

  lemma SameBefore(s: State, m: State, t: State, r: Ref)
    requires Unmoved(m, t, r) && m.recoveries == s.recoveries
    ensures Unmoved(s, t, r)
  {
  }

  /** After a disconnect no recovery makes another attempt on the entry until it drops anew. */
  lemma {:induction false} StaysUnmoved(s: State, limit: nat, schedule: seq<Event>, r: Ref)
    requires Inv(s, limit) && r in s.objects && s.objects[r].recovery.None? && NoDrops(s, limit, schedule, r)
    ensures Unmoved(s, Run(s, limit, schedule), r)
    decreases |schedule|
  {
    hide Step, NamesOk, AllReadyOk, RecoveriesOk, Drops;
    if schedule != [] {
      var n := |schedule| - 1;
      var m := Run(s, limit, schedule[..n]);
      StaysUnmoved(s, limit, schedule[..n], r);
      RunKeepsInv(s, limit, schedule[..n]);
      StepIsUnmoved(m, limit, schedule[n], r);
    }
  }

  ghost predicate StartsRecovery(s: State, t: State, r: Ref) {
    exists q :: q in t.recoveries && q !in s.recoveries && t.recoveries[q].ref == r
  }

  /** A drop of an entry is exactly an event that starts a recovery of it. */
  lemma DropsStartRecoveries(s: State, limit: nat, ev: Event, r: Ref)
    requires Inv(s, limit)
    ensures StartsRecovery(s, Step(s, limit, ev), r) <==> Drops(s, ev, r)
  {
    hide NamesOk, AllReadyOk, RecoveriesOk, AfterConnect, AfterHandshake, AfterFail, AfterRecover, AfterTick, AfterOpened,
         AfterAttemptFails, AfterResume, AfterDisconnect, AfterDispose, Calm;
    var t := Step(s, limit, ev);
    assert NamesOk(s) by { assert Inv(s, limit); }
    match ev
    case Connect(record) => ConnectIsCalm(s, record); CalmFacts(s, t);
    case TransportOpened(a, tr, port) => OpenedIsCalm(s, a, tr, port); CalmFacts(s, t);
    case Handshake(a, info) => HandshakeIsCalm(s, a, info); CalmFacts(s, t);
    case AttemptFails(a) => AttemptFailsKeepsRecoveries(s, a);
    case RecoveryTick(q) => TickStartsNone(s, limit, q);
    case RecoveryResumes(q) => ResumeIsCalm(s, q); CalmFacts(s, t);
    case Disconnect(node) => DisconnectIsCalm(s, node); CalmFacts(s, t);
    case Dispose => DisposeKeepsRecoveries(s);
    case ForwardExits(l) =>
      if t != s {
        var c := s.lives[l];
        LossStartsOne(s.(lost := s.lost + {c.transport}), limit, c.ref, c.record, Exited(c.transport));
        NextIsFresh(s);
      } else {
        NoLossNoChange(s, limit, ev);
      }
    case RequestFails(l) =>
      if t != s {
        LossStartsOne(s, limit, s.lives[l].ref, s.lives[l].record, Dropped(l));
        NextIsFresh(s);
      } else {
        NoLossNoChange(s, limit, ev);
      }
  }

  lemma NextIsFresh(s: State)
    requires NamesOk(s)
    ensures s.next !in s.recoveries
  {
  }

  lemma LossStartsOne(s: State, limit: nat, r: Ref, record: Record, cause: Cause)
    requires r in s.objects
    ensures AfterFail(s, r).objects.Keys == s.objects.Keys
    ensures AfterRecover(AfterFail(s, r), r, record, cause).recoveries == s.recoveries[s.next := Recovery(r, record, 0, Sleeping, cause)]
  {
  }

  /** A report that changes nothing was no drop. */
  lemma NoLossNoChange(s: State, limit: nat, ev: Event)
    requires NamesOk(s) && (ev.ForwardExits? || ev.RequestFails?) && Step(s, limit, ev) == s
    ensures forall r :: !Drops(s, ev, r)
  {
    hide AfterFail;
    if IsLive(s, ev.l) {
      var c := s.lives[ev.l];
      LossStartsOne(s, limit, c.ref, c.record, Dropped(ev.l));
      LossStartsOne(s.(lost := s.lost + {c.transport}), limit, c.ref, c.record, Exited(c.transport));
      NextIsFresh(s);
    }
  }

  lemma TickStartsNone(s: State, limit: nat, q: RecoveryId)
    requires NamesOk(s)
    ensures AfterTick(s, limit, q).recoveries.Keys == s.recoveries.Keys
  {
    hide AfterConnect;
    if q in s.recoveries { ConnectIsCalm(s, s.recoveries[q].record); }
  }

  /** What a disconnect provokes itself, and any late report about the old connection, is no drop. */
  lemma DisconnectProvokesNoDrop(limit: nat, before: seq<Event>, node: Node, ev: Event)
    requires node in Run(Init, limit, before).entries && (ev.ForwardExits? || ev.RequestFails?)
    ensures var s := Run(Init, limit, before);
            !Drops(Step(s, limit, Disconnect(node)), ev, s.entries[node])
  {
    hide Run, AllReadyOk, RecoveriesOk;
    InitInv(limit);
    RunKeepsInv(Init, limit, before);
  }

  lemma DisconnectEndsRecovery(limit: nat, before: seq<Event>, node: Node, after: seq<Event>)
    requires node in Run(Init, limit, before).entries
    requires var s := Step(Run(Init, limit, before), limit, Disconnect(node));
             NoDrops(s, limit, after, Run(Init, limit, before).entries[node])
    ensures var s := Step(Run(Init, limit, before), limit, Disconnect(node));
            Unmoved(s, Run(s, limit, after), Run(Init, limit, before).entries[node])
  {
    hide Run, AllReadyOk, RecoveriesOk, NoDrops, Unmoved;
    InitInv(limit);
    RunKeepsInv(Init, limit, before);
    var s0 := Run(Init, limit, before);
    StepKeepsInv(s0, limit, Disconnect(node));
    StaysUnmoved(Step(s0, limit, Disconnect(node)), limit, after, s0.entries[node]);
  }

  // ------------------------------------------------------ facts the methods are given

  lemma AttemptHasEntry(s: State, limit: nat, a: AttemptId)
    requires Inv(s, limit) && a in s.attempts
    ensures s.attempts[a].ref in s.objects
  {
  }

  lemma LiveHasEntry(s: State, limit: nat, l: LiveId)
    requires Inv(s, limit) && l in s.lives
    ensures s.lives[l].ref in s.objects
  {
  }

  lemma RecoveryHasEntry(s: State, limit: nat, q: RecoveryId)
    requires Inv(s, limit) && q in s.recoveries
    ensures s.recoveries[q].ref in s.objects
  {
  }

  lemma TableIsBacked(s: State, limit: nat)
    requires Inv(s, limit)
    ensures forall n :: n in s.entries ==> s.entries[n] in s.objects && Tabled(s, s.entries[n]) && s.home[s.entries[n]] == n
  {
  }

  lemma FailKeepsObjects(s: State, r: Ref)
    requires r in s.objects
    ensures AfterFail(s, r).objects.Keys == s.objects.Keys
  {
  }

  /** A disposal that still has these nodes to visit. */
  ghost function Disposing(s: State, rest: set<Node>): State {
    s.(objects := map r | r in s.objects :: if Visited(s, rest, r) then Cleared(s.objects[r]).(recovery := None) else s.objects[r],
       closedLives := s.closedLives + set r | r in s.objects && Visited(s, rest, r) && s.objects[r].live.Some? :: s.objects[r].live.value,
       closedTransports := s.closedTransports
         + set r | r in s.objects && Visited(s, rest, r) && s.objects[r].transport.Some? :: s.objects[r].transport.value)
  }

  ghost predicate Visited(s: State, rest: set<Node>, r: Ref) { Tabled(s, r) && s.home[r] !in rest }

  /** Clearing the next node's entry takes the disposal one node further. */
  lemma DisposingOne(s: State, rest: set<Node>, node: Node)
    requires node in rest && node in s.entries && s.entries[node] in s.objects && Tabled(s, s.entries[node])
    requires s.home[s.entries[node]] == node
    ensures var t, r := Disposing(s, rest), s.entries[node];
      && r in t.objects && Disposing(s, rest - {node}).objects.Keys == s.objects.Keys
      && Disposing(s, rest - {node}) == AfterClear(t.(objects := t.objects[r := t.objects[r].(recovery := None)]), r)
  {
    var t, r := Disposing(s, rest), s.entries[node];
    var u := AfterClear(t.(objects := t.objects[r := t.objects[r].(recovery := None)]), r);
    var v := Disposing(s, rest - {node});
    forall x | x in s.objects ensures Visited(s, rest - {node}, x) <==> Visited(s, rest, x) || x == r {}
    assert v.objects == u.objects;
    assert v.closedLives == u.closedLives;
    assert v.closedTransports == u.closedTransports;
  }

  lemma DisposingAll(s: State)
    ensures Disposing(s, {}).(entries := map[]) == AfterDispose(s)
  {
  }

  lemma DisposingNone(s: State)
    requires forall r :: r in s.objects ==> !Visited(s, s.entries.Keys, r)
    ensures Disposing(s, s.entries.Keys) == s
  {
  }

  /** What a caller of connect is told is what the node's entry now says. */
  lemma ConnectAnswers(s: State, limit: nat, record: Record)
    requires Inv(s, limit)
    ensures var (t, answer) := AfterConnect(s, record);
      && record.node in t.entries && t.entries[record.node] in t.objects
      && (answer.Immediate? ==> t.objects[t.entries[record.node]].state.Ready?)
      && (answer.Awaits? ==> t.objects[t.entries[record.node]].pending == Some(answer.a))
  {
    hide AllReadyOk, RecoveriesOk, HoldsOk, EntryFor;
    EntryForKeepsNames(s, record.node);
  }

  lemma EntryIsBacked(s: State, limit: nat, node: Node)
    requires Inv(s, limit)
    ensures var t := EntryFor(s, node); node in t.entries && t.entries[node] in t.objects
  {
    hide AllReadyOk, RecoveriesOk, HoldsOk, EntryFor;
    EntryForKeepsNames(s, node);
  }
}
