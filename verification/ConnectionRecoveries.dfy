/** Runs of the connection manager: recoveries keep trying, and awaited attempts are under way. */
module ConnectionRecoveries {
  import opened Prelude
  import opened ConnectionState
  import opened ConnectionEffects
  import ConnectionRuns

  // ----------------------------------------------------------- what entries and recoveries await

  /** The attempt is one for this node. */
  ghost predicate IsFor(s: State, a: AttemptId, node: Node) { a in s.attempts && s.attempts[a].record.node == node }

  /** An entry waits only for an attempt that is under way, and was made for it and its node. */
  ghost predicate PendingOk(s: State) {
    forall r :: r in s.objects && s.objects[r].pending.Some? ==>
      var a := s.objects[r].pending.value;
      r in s.home && IsFor(s, a, s.home[r]) && InFlight(s.attempts[a]) && s.attempts[a].ref == r
  }

  /** Entries wait for no more than they did, and the attempts they wait for are as they were. */
  ghost predicate AwaitsLess(s: State, t: State) {
    && t.home == s.home && t.objects.Keys == s.objects.Keys && s.attempts.Keys <= t.attempts.Keys
    && (forall a :: a in s.attempts ==> t.attempts[a].record == s.attempts[a].record && t.attempts[a].ref == s.attempts[a].ref)
    && forall r :: r in t.objects && t.objects[r].pending.Some? ==>
         && t.objects[r].pending == s.objects[r].pending
         && (t.objects[r].pending.value in s.attempts && InFlight(s.attempts[t.objects[r].pending.value])
             ==> InFlight(t.attempts[t.objects[r].pending.value]))
  }

  lemma AwaitingLessKeepsPending(s: State, t: State)
    requires PendingOk(s) && AwaitsLess(s, t)
    ensures PendingOk(t)
  {
  }

  lemma EntryForKeepsPending(s: State, node: Node)
    requires PendingOk(s) && s.home.Keys == s.objects.Keys
    ensures PendingOk(EntryFor(s, node))
  {
  }

  lemma StartKeepsPending(s: State, record: Record)
    requires PendingOk(s) && record.node in s.entries && s.entries[record.node] in s.home && s.home[s.entries[record.node]] == record.node
    requires s.next !in s.attempts
    ensures PendingOk(Started(s, record).0)
  {
    ConnectionRuns.StartIsOneUpdate(s, record);
    hide Started;
  }

  lemma ConnectKeepsPending(s: State, record: Record)
    requires NamesOk(s) && PendingOk(s)
    ensures PendingOk(AfterConnect(s, record).0)
  {
    hide EntryFor, Started, PendingOk, NamesOk;
    ConnectionRuns.EntryForKeepsNames(s, record.node);
    TableIsOk(s, record.node);
    TableIsOk(EntryFor(s, record.node), record.node);
    EntryForKeepsPending(s, record.node);
    StartKeepsPending(EntryFor(s, record.node), record);
  }

  lemma TableIsOk(s: State, node: Node)
    requires NamesOk(s)
    ensures s.home.Keys == s.objects.Keys && s.next !in s.attempts
    ensures node in s.entries ==> s.entries[node] in s.home && s.home[s.entries[node]] == node
  {
  }

  /** The attempt that is over is no longer awaited: an entry waits for no attempt of another. */
  lemma HandshakeAwaitsLess(s: State, a: AttemptId, info: nat)
    requires PendingOk(s)
    ensures AwaitsLess(s, AfterHandshake(s, a, info))
  {
  }

  lemma AttemptFailsAwaitsLess(s: State, a: AttemptId)
    requires PendingOk(s)
    ensures AwaitsLess(s, AfterAttemptFails(s, a))
  {
    hide AfterFail;
    if IsAttempt(s, a) && InFlight(s.attempts[a]) {
      FailLeaves(s.(attempts := s.attempts[a := s.attempts[a].(progress := Fell)]), s.attempts[a].ref);
    }
  }

  lemma OpenedAwaitsLess(s: State, a: AttemptId, tr: TransportId, port: nat)
    ensures AwaitsLess(s, AfterOpened(s, a, tr, port))
  {
  }

  lemma TickKeepsPending(s: State, limit: nat, q: RecoveryId)
    requires NamesOk(s) && PendingOk(s)
    ensures PendingOk(AfterTick(s, limit, q))
  {
    hide NamesOk, PendingOk, AfterConnect;
    if AfterTick(s, limit, q) != s {
      ConnectKeepsPending(s, s.recoveries[q].record);
      AwaitingLessKeepsPending(ConnectionRuns.Ticked(s, limit, q), AfterTick(s, limit, q));
    }
  }

  lemma LossAwaitsLess(s: State, r: Ref, record: Record, cause: Cause)
    requires r in s.objects
    ensures AfterFail(s, r).objects.Keys == s.objects.Keys
    ensures AwaitsLess(s, AfterRecover(AfterFail(s, r), r, record, cause))
  {
    FailLeaves(s, r);
    hide AfterFail;
  }

  lemma ReportsAwaitLess(s: State, l: LiveId)
    ensures AwaitsLess(s, AfterForwardExits(s, l)) && AwaitsLess(s, AfterRequestFails(s, l))
  {
    hide AfterFail, AfterRecover;
    if IsLive(s, l) {
      var c := s.lives[l];
      LossAwaitsLess(s.(lost := s.lost + {c.transport}), c.ref, c.record, Exited(c.transport));
      LossAwaitsLess(s, c.ref, c.record, Dropped(l));
    }
  }

  lemma EndsAwaitLess(s: State, node: Node)
    ensures AwaitsLess(s, AfterDisconnect(s, node)) && AwaitsLess(s, AfterDispose(s))
  {
    hide AsSet;
  }

  lemma StepKeepsPending(s: State, limit: nat, ev: Event)
    requires NamesOk(s) && PendingOk(s)
    ensures PendingOk(Step(s, limit, ev))
  {
    hide NamesOk, PendingOk, AfterConnect, AfterHandshake, AfterAttemptFails, AfterOpened, AfterTick, AfterForwardExits, AfterRequestFails,
         AfterDisconnect, AfterDispose;
    var t := Step(s, limit, ev);
    match ev
    case Connect(record) => ConnectKeepsPending(s, record);
    case TransportOpened(a, tr, port) => OpenedAwaitsLess(s, a, tr, port); AwaitingLessKeepsPending(s, t);
    case Handshake(a, info) => HandshakeAwaitsLess(s, a, info); AwaitingLessKeepsPending(s, t);
    case AttemptFails(a) => AttemptFailsAwaitsLess(s, a); AwaitingLessKeepsPending(s, t);
    case ForwardExits(l) => ReportsAwaitLess(s, l); AwaitingLessKeepsPending(s, t);
    case RequestFails(l) => ReportsAwaitLess(s, l); AwaitingLessKeepsPending(s, t);
    case RecoveryTick(q) => TickKeepsPending(s, limit, q);
    case RecoveryResumes(q) => AwaitingLessKeepsPending(s, t);
    case Disconnect(node) => EndsAwaitLess(s, node); AwaitingLessKeepsPending(s, t);
    case Dispose => EndsAwaitLess(s, 0); AwaitingLessKeepsPending(s, t);
  }

  // ---------------------------------------------------------------- what recoveries have done

  /** The event has the recovery make an attempt. */
  ghost predicate Tries(s: State, limit: nat, ev: Event, q: RecoveryId) {
    && ev == RecoveryTick(q) && q in s.recoveries && s.recoveries[q].ref in s.objects
    && s.recoveries[q].stage.Sleeping? && !Displaced(s, limit, q)
  }

  /**
   * The event ends the recovery: its pause is over and it is displaced or its node is ready, or
   * the attempt it awaited went well.
   */
  ghost predicate Ends(s: State, limit: nat, ev: Event, q: RecoveryId) {
    && q in s.recoveries && s.recoveries[q].ref in s.objects
    && match s.recoveries[q].stage
       case Sleeping => ev == RecoveryTick(q) && (Displaced(s, limit, q) || IsReady(Found(s, s.recoveries[q].record.node)))
       case Awaiting(a) => ev == RecoveryResumes(q) && a in s.attempts && s.attempts[a].progress.Succeeded?
       case Over => false
  }

  ghost function TriesMade(limit: nat, schedule: seq<Event>, q: RecoveryId): nat {
    if schedule == [] then 0
    else
      var n := |schedule| - 1;
      TriesMade(limit, schedule[..n], q) + if Tries(Run(Init, limit, schedule[..n]), limit, schedule[n], q) then 1 else 0
  }

  ghost predicate Ended(limit: nat, schedule: seq<Event>, q: RecoveryId) {
    schedule != [] &&
      var n := |schedule| - 1;
      Ended(limit, schedule[..n], q) || Ends(Run(Init, limit, schedule[..n]), limit, schedule[n], q)
  }

  /** How one event moves one recovery on. */
  ghost predicate MovesOn(s: State, t: State, limit: nat, ev: Event, q: RecoveryId) {
    if q !in s.recoveries then q in t.recoveries ==> t.recoveries[q].made == 0 && t.recoveries[q].stage.Sleeping?
    else
      && q in t.recoveries && t.recoveries[q].record == s.recoveries[q].record && t.recoveries[q].ref == s.recoveries[q].ref
      && t.recoveries[q].made == s.recoveries[q].made + (if Tries(s, limit, ev, q) then 1 else 0)
      && (t.recoveries[q].stage.Over? <==> s.recoveries[q].stage.Over? || Ends(s, limit, ev, q))
  }

  lemma TickMovesOn(s: State, limit: nat, p: RecoveryId, q: RecoveryId)
    requires Inv(s, limit)
    ensures MovesOn(s, AfterTick(s, limit, p), limit, RecoveryTick(p), q)
  {
    hide Inv, AfterConnect, Asked;
    if p in s.recoveries { ConnectionRuns.RecoveryHasEntry(s, limit, p); }
    if p in s.recoveries && s.recoveries[p].stage.Sleeping? {
      TickLeaves(s, limit, p);
      TriedMovesOn(s, AfterTick(s, limit, p), limit, p, q);
    }
  }

  lemma TriedMovesOn(s: State, t: State, limit: nat, p: RecoveryId, q: RecoveryId)
    requires Tried(s, t, limit, p) && s.recoveries[p].stage.Sleeping?
    ensures MovesOn(s, t, limit, RecoveryTick(p), q)
  {
    if !Displaced(s, limit, p) {
      TryEnds(s, t, limit, p);
      hide Asked;
    }
  }

  lemma TryEnds(s: State, t: State, limit: nat, p: RecoveryId)
    requires Tried(s, t, limit, p) && !Displaced(s, limit, p)
    ensures t.recoveries[p].stage.Over? <==> IsReady(Found(s, s.recoveries[p].record.node))
  {
  }

  lemma ResumeMovesOn(s: State, limit: nat, p: RecoveryId, q: RecoveryId)
    requires Inv(s, limit)
    ensures MovesOn(s, AfterResume(s, p), limit, RecoveryResumes(p), q)
  {
    hide Inv;
    if p in s.recoveries { ConnectionRuns.RecoveryHasEntry(s, limit, p); }
  }

  ghost predicate StartsOne(s: State, t: State) {
    exists p :: p in t.recoveries && p !in s.recoveries && t.recoveries == s.recoveries[p := t.recoveries[p]]
             && t.recoveries[p].made == 0 && t.recoveries[p].stage.Sleeping?
  }

  /** Losses start recoveries; nothing else but their own events moves them. */
  lemma OthersMoveNothing(s: State, t: State, limit: nat, ev: Event, q: RecoveryId)
    requires !ev.RecoveryTick? && !ev.RecoveryResumes?
    requires t.recoveries == s.recoveries || StartsOne(s, t)
    ensures MovesOn(s, t, limit, ev, q)
  {
  }

  lemma ReportMovesOn(s: State, limit: nat, ev: Event, q: RecoveryId)
    requires Inv(s, limit) && (ev.ForwardExits? || ev.RequestFails?)
    ensures MovesOn(s, Step(s, limit, ev), limit, ev, q)
  {
    hide Inv, AfterFail, AfterRecover, MovesOn;
    NamesAreFree(s, limit, 0);
    var t := Step(s, limit, ev);
    if t != s {
      var c := s.lives[ev.l];
      var m, cause := if ev.ForwardExits? then s.(lost := s.lost + {c.transport}) else s,
                      if ev.ForwardExits? then Exited(c.transport) else Dropped(ev.l);
      ConnectionRuns.LossStartsOne(m, limit, c.ref, c.record, cause);
      assert s.next in t.recoveries && t.recoveries == s.recoveries[s.next := t.recoveries[s.next]];
    }
    OthersMoveNothing(s, t, limit, ev, q);
  }

  lemma StepMovesOn(s: State, limit: nat, ev: Event, q: RecoveryId)
    requires Inv(s, limit)
    ensures MovesOn(s, Step(s, limit, ev), limit, ev, q)
  {
    hide Inv, MovesOn, AfterConnect, AfterHandshake, AfterAttemptFails, AfterOpened, AfterTick, AfterResume, AfterForwardExits,
         AfterRequestFails, AfterDisconnect, AfterDispose;
    var t := Step(s, limit, ev);
    match ev
    case Connect(record) => ConnectingRecoversNothing(s, limit, record); OthersMoveNothing(s, t, limit, ev, q);
    case TransportOpened(a, tr, port) => ConnectionRuns.OpenedIsCalm(s, a, tr, port); OthersMoveNothing(s, t, limit, ev, q);
    case Handshake(a, info) =>
      assert NamesOk(s) by { InvHasNames(s, limit); }
      ConnectionRuns.HandshakeIsCalm(s, a, info);
      OthersMoveNothing(s, t, limit, ev, q);
    case AttemptFails(a) => ConnectionRuns.AttemptFailsKeepsRecoveries(s, a); OthersMoveNothing(s, t, limit, ev, q);
    case ForwardExits(l) => ReportMovesOn(s, limit, ev, q);
    case RequestFails(l) => ReportMovesOn(s, limit, ev, q);
    case RecoveryTick(p) => TickMovesOn(s, limit, p, q);
    case RecoveryResumes(p) => ResumeMovesOn(s, limit, p, q);
    case Disconnect(node) => ConnectionRuns.DisconnectIsCalm(s, node); OthersMoveNothing(s, t, limit, ev, q);
    case Dispose => ConnectionRuns.DisposeKeepsRecoveries(s); OthersMoveNothing(s, t, limit, ev, q);
  }

  lemma InvHasNames(s: State, limit: nat)
    requires Inv(s, limit)
    ensures NamesOk(s)
  {
  }

  // ----------------------------------------------------------------------- over a run

  /**
   * In every run a recovery has made an attempt at each of its ticks that found it undisplaced,
   * and is over exactly when it was displaced or its attempts were spent, its node was ready, or
   * the attempt it awaited went well. Until then a dropped node keeps being tried.
   */
  lemma {:induction false} RecoveriesKeepTrying(limit: nat, schedule: seq<Event>, q: RecoveryId)
    ensures var s := Run(Init, limit, schedule);
      if q in s.recoveries then
        s.recoveries[q].made == TriesMade(limit, schedule, q) && (s.recoveries[q].stage.Over? <==> Ended(limit, schedule, q))
      else TriesMade(limit, schedule, q) == 0 && !Ended(limit, schedule, q)
    decreases |schedule|
  {
    if schedule != [] {
      hide Inv, Step, Tries, Ends;
      var n := |schedule| - 1;
      var m := Run(Init, limit, schedule[..n]);
      RecoveriesKeepTrying(limit, schedule[..n], q);
      ConnectionRuns.InitInv(limit);
      ConnectionRuns.RunKeepsInv(Init, limit, schedule[..n]);
      StepMovesOn(m, limit, schedule[n], q);
      NoneWithoutRecovery(m, limit, schedule[n], q);
    }
  }

  lemma NoneWithoutRecovery(s: State, limit: nat, ev: Event, q: RecoveryId)
    ensures q !in s.recoveries ==> !Tries(s, limit, ev, q) && !Ends(s, limit, ev, q)
  {
  }

  lemma InitAwaitsNothing()
    ensures PendingOk(Init)
  {
  }

  /** In every run an entry waits only for an attempt that is under way, for it and its node. */
  lemma {:induction false} AwaitedIsUnderWay(limit: nat, schedule: seq<Event>)
    ensures PendingOk(Run(Init, limit, schedule))
    decreases |schedule|
  {
    hide Step, PendingOk, Inv;
    if schedule == [] {
      InitAwaitsNothing();
    } else {
      var n := |schedule| - 1;
      AwaitedIsUnderWay(limit, schedule[..n]);
      ConnectionRuns.InitInv(limit);
      ConnectionRuns.RunKeepsInv(Init, limit, schedule[..n]);
      InvHasNames(Run(Init, limit, schedule[..n]), limit);
      StepKeepsPending(Run(Init, limit, schedule[..n]), limit, schedule[n]);
    }
  }

  /**
   * A try of a recovery, in any run: one more attempt is counted, and either the node was ready
   * and the recovery is over, or it awaits the attempt under way that its node's entry waits for.
   */
  lemma TryAsksForTheNode(limit: nat, schedule: seq<Event>, q: RecoveryId)
    requires Tries(Run(Init, limit, schedule), limit, RecoveryTick(q), q)
    ensures var s := Run(Init, limit, schedule); var t := Step(s, limit, RecoveryTick(q));
      && q in s.recoveries && q in t.recoveries
      && var rec, stage := s.recoveries[q], t.recoveries[q].stage;
      && t.recoveries[q] == rec.(made := rec.made + 1, stage := stage)
      && rec.record.node in t.entries && t.entries[rec.record.node] in t.objects
      && var e := t.objects[t.entries[rec.record.node]];
      && (if IsReady(Found(s, rec.record.node)) then stage.Over? && e.state.Ready?
          else stage.Awaiting? && e.pending == Some(stage.a) && IsFor(t, stage.a, rec.record.node) && InFlight(t.attempts[stage.a]))
  {
    hide Run, Inv, AfterConnect, Found;
    var s := Run(Init, limit, schedule);
    ConnectionRuns.InitInv(limit);
    ConnectionRuns.RunKeepsInv(Init, limit, schedule);
    TickLeaves(s, limit, q);
    StepAfter(limit, schedule, RecoveryTick(q));
    AwaitedIsUnderWay(limit, schedule + [RecoveryTick(q)]);
    ConnectionRuns.StepKeepsInv(s, limit, RecoveryTick(q));
    var t := Step(s, limit, RecoveryTick(q));
    var node := s.recoveries[q].record.node;
    TableIsHome(t, limit, node);
  }

  lemma TableIsHome(s: State, limit: nat, node: Node)
    requires Inv(s, limit)
    ensures node in s.entries ==> s.entries[node] in s.home && s.home[s.entries[node]] == node
  {
  }

  lemma StepAfter(limit: nat, schedule: seq<Event>, ev: Event)
    ensures Run(Init, limit, schedule + [ev]) == Step(Run(Init, limit, schedule), limit, ev)
  {
    hide Step;
  }
}
