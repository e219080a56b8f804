/** What each step of the connection manager comes to, for the entry it is about and the rest. */
module ConnectionEffects {
  import opened Prelude
  import opened ConnectionState
  import ConnectionRuns

  /** The other entries are as they were. */
  ghost predicate OthersKept(s: State, t: State, r: Ref) {
    r in s.objects && t.objects.Keys == s.objects.Keys && forall x :: x in s.objects && x != r ==> t.objects[x] == s.objects[x]
  }

  /** The table, the connections made and the forwards opened are as they were. */
  ghost predicate SameNames(s: State, t: State) {
    t.entries == s.entries && t.home == s.home && t.lives == s.lives && t.forwards == s.forwards
  }

  /** The entry has let go of what it held, which is closed; its state and recovery are these. */
  ghost predicate LetGo(s: State, t: State, r: Ref, state: Phase, recovery: Option<RecoveryId>) {
    && OthersKept(s, t, r) && SameNames(s, t)
    && t.objects[r] == Blank.(state := state, recovery := recovery)
    && (forall x :: x in t.closedTransports <==> x in s.closedTransports || s.objects[r].transport == Some(x))
    && forall l :: l in t.closedLives <==> l in s.closedLives || s.objects[r].live == Some(l)
  }

  lemma ClearLeaves(s: State, r: Ref)
    requires r in s.objects
    ensures LetGo(s, AfterClear(s, r), r, s.objects[r].state, s.objects[r].recovery)
  {
  }

  lemma FailLeaves(s: State, r: Ref)
    requires r in s.objects
    ensures LetGo(s, AfterFail(s, r), r, Failed, s.objects[r].recovery)
    ensures var t := AfterFail(s, r); t.attempts == s.attempts && t.recoveries == s.recoveries && t.lost == s.lost && t.next == s.next
  {
  }

  /** A loss: the entry fails, lets go, and a new recovery that has made no attempt yet sleeps. */
  ghost predicate Lost(s: State, t: State, r: Ref, record: Record, cause: Cause) {
    && r in t.objects && t.objects[r].recovery.Some?
    && var q := t.objects[r].recovery.value;
    && q !in s.recoveries && t.recoveries == s.recoveries[q := Recovery(r, record, 0, Sleeping, cause)]
    && LetGo(s, t, r, Failed, Some(q)) && t.attempts == s.attempts
  }

  lemma LossLeaves(s: State, r: Ref, record: Record, cause: Cause)
    requires r in s.objects && s.next !in s.recoveries
    ensures AfterFail(s, r).objects.Keys == s.objects.Keys
    ensures Lost(s, AfterRecover(AfterFail(s, r), r, record, cause), r, record, cause)
    ensures AfterRecover(AfterFail(s, r), r, record, cause).lost == s.lost
  {
    FailLeaves(s, r);
    hide AfterFail;
  }

  /** Noting that a forward was seen to exit is no part of what the loss comes to. */
  lemma LostAlsoBefore(s: State, m: State, t: State, r: Ref, record: Record, cause: Cause)
    requires Lost(m, t, r, record, cause) && m == s.(lost := m.lost)
    ensures Lost(s, t, r, record, cause)
  {
  }

  /** What the entry of a node is before a caller asks for it. */
  function Found(s: State, node: Node): Entry {
    if node in s.entries && s.entries[node] in s.objects then s.objects[s.entries[node]] else Blank
  }

  predicate IsReady(e: Entry) { e.state.Ready? && e.info.Some? }

  /**
   * A caller asked for a node. If it was ready it stays so; if an attempt was awaited that one is
   * awaited; otherwise one attempt was made, which the node's entry now waits for.
   */
  ghost predicate Asked(s: State, t: State, record: Record, answer: Answer) {
    && record.node in t.entries && t.entries[record.node] in t.objects
    && var r, was := t.entries[record.node], Found(s, record.node);
    && t.entries == s.entries[record.node := r] && t.home.Keys == s.home.Keys + {r}
    && (forall x :: x in s.home && x != r ==> t.home[x] == s.home[x]) && t.home[r] == record.node
    && t.objects.Keys == s.objects.Keys + {r} && (forall x :: x in s.objects && x != r ==> t.objects[x] == s.objects[x])
    && t.lives == s.lives && t.forwards == s.forwards && t.recoveries == s.recoveries && t.lost == s.lost
    && t.closedTransports == s.closedTransports && t.closedLives == s.closedLives
    && (answer.Immediate? <==> IsReady(was))
    && if IsReady(was) then t.objects[r] == was && t.attempts == s.attempts
       else if was.pending.Some? then answer == Awaits(was.pending.value) && t.objects[r] == was && t.attempts == s.attempts
       else
         && answer.Awaits? && answer.a !in s.attempts && t.attempts == s.attempts[answer.a := Attempt(r, record, Opening)]
         && t.objects[r] == was.(state := Connecting, pending := Some(answer.a))
  }

  /** The entry the asking starts from: the node's own, or a blank one made for it. */
  lemma EntryForFinds(s: State, limit: nat, node: Node)
    requires Inv(s, limit)
    ensures var m := EntryFor(s, node);
      && node in m.entries && m.entries[node] in m.objects && m.objects[m.entries[node]] == Found(s, node)
      && (node in s.entries ==> m == s) && m.entries == s.entries[node := m.entries[node]]
      && m.home.Keys == s.home.Keys + {m.entries[node]}
      && (forall x :: x in s.home && x != m.entries[node] ==> m.home[x] == s.home[x]) && m.home[m.entries[node]] == node
      && m.objects.Keys == s.objects.Keys + {m.entries[node]}
      && (forall x :: x in s.objects && x != m.entries[node] ==> m.objects[x] == s.objects[x])
      && m == s.(entries := m.entries, objects := m.objects, home := m.home, next := m.next)
      && m.next !in s.attempts
  {
    NamesAreFree(s, limit, node);
    hide Inv;
    if node in s.entries {
      assert s.objects.Keys + {s.entries[node]} == s.objects.Keys && s.home.Keys + {s.entries[node]} == s.home.Keys;
      assert s.entries[node := s.entries[node]] == s.entries;
    } else {
      assert s.objects[s.next := Blank].Keys == s.objects.Keys + {s.next};
    }
  }

  lemma NamesAreFree(s: State, limit: nat, node: Node)
    requires Inv(s, limit)
    ensures s.next !in s.attempts && s.next + 1 !in s.attempts && s.next !in s.objects && s.next !in s.recoveries
    ensures node in s.entries ==> s.entries[node] in s.objects && s.entries[node] in s.home && s.home[s.entries[node]] == node
  {
    hide AllReadyOk, RecoveriesOk, HoldsOk;
  }

  lemma StartLeaves(s: State, record: Record)
    requires record.node in s.entries && s.entries[record.node] in s.objects && s.next !in s.attempts
    ensures var (t, answer) := Started(s, record); var r, was := s.entries[record.node], s.objects[s.entries[record.node]];
      && (answer.Immediate? <==> IsReady(was))
      && if IsReady(was) then t == s
         else if was.pending.Some? then answer == Awaits(was.pending.value) && t == s
         else
           && answer == Awaits(s.next)
           && t == s.(objects := s.objects[r := was.(state := Connecting, pending := Some(s.next))],
                      attempts := s.attempts[s.next := Attempt(r, record, Opening)], next := s.next + 1)
  {
  }

  lemma ConnectLeaves(s: State, limit: nat, record: Record)
    requires Inv(s, limit)
    ensures Asked(s, AfterConnect(s, record).0, record, AfterConnect(s, record).1)
  {
    hide Inv, EntryFor, Started, Found;
    EntryForFinds(s, limit, record.node);
    StartLeaves(EntryFor(s, record.node), record);
  }

  /** The attempt's transport is stored in its entry, and the attempt goes on to dial. */
  ghost predicate Opened(s: State, t: State, a: AttemptId, tr: TransportId, port: nat) {
    && a in s.attempts && s.attempts[a].ref in s.objects
    && var attempt := s.attempts[a];
    && t == s.(objects := s.objects[attempt.ref := s.objects[attempt.ref].(transport := Some(tr))],
               attempts := s.attempts[a := Attempt(attempt.ref, attempt.record, Dialing(tr, port))],
               forwards := s.forwards[tr := a])
  }

  /** The entry is ready with a new connection, and what it holds is of this attempt. */
  ghost predicate Connected(s: State, t: State, a: AttemptId, info: nat) {
    && a in s.attempts && s.attempts[a].progress.Dialing? && s.attempts[a].ref in s.objects
    && var attempt := s.attempts[a]; var was := s.objects[attempt.ref];
    && OthersKept(s, t, attempt.ref) && t.objects[attempt.ref].live.Some?
    && var l := t.objects[attempt.ref].live.value;
    && l !in s.lives && t.lives == s.lives[l := Conn(attempt.ref, attempt.record, a, attempt.progress.t)]
    && t.objects[attempt.ref]
         == Entry(Ready, Some(info), Some(l), None, was.transport, if attempt.record.ssh then Some(attempt.progress.port) else None,
                  was.recovery, Some(l), Some(attempt.record))
    && t.attempts == s.attempts[a := Attempt(attempt.ref, attempt.record, Succeeded(l, attempt.progress.t))]
    && t.entries == s.entries && t.recoveries == s.recoveries && t.forwards == s.forwards
    && t.closedTransports == s.closedTransports && t.closedLives == s.closedLives
  }

  lemma HandshakeLeaves(s: State, limit: nat, a: AttemptId, info: nat)
    requires Inv(s, limit) && a in s.attempts && s.attempts[a].progress.Dialing?
    ensures Connected(s, AfterHandshake(s, a, info), a, info)
  {
    hide AllReadyOk, RecoveriesOk, HoldsOk, TableOk;
  }

  lemma OpenedLeaves(s: State, limit: nat, a: AttemptId, tr: TransportId, port: nat)
    requires Inv(s, limit) && a in s.attempts && s.attempts[a].progress.Opening?
    ensures Opened(s, AfterOpened(s, a, tr, port), a, tr, port)
  {
    hide AllReadyOk, RecoveriesOk, HoldsOk, TableOk;
  }

  lemma AttemptFailsLeaves(s: State, limit: nat, a: AttemptId)
    requires Inv(s, limit) && a in s.attempts && InFlight(s.attempts[a])
    ensures s.attempts[a].ref in s.objects
    ensures var t, r := AfterAttemptFails(s, a), s.attempts[a].ref;
      && LetGo(s, t, r, Failed, s.objects[r].recovery) && t.recoveries == s.recoveries
      && t.attempts == s.attempts[a := s.attempts[a].(progress := Fell)]
  {
    ConnectionRuns.AttemptHasEntry(s, limit, a);
    FailLeaves(s.(attempts := s.attempts[a := s.attempts[a].(progress := Fell)]), s.attempts[a].ref);
    hide AfterFail, Inv;
  }

  lemma ConnectingRecoversNothing(s: State, limit: nat, record: Record)
    requires Inv(s, limit)
    ensures AfterConnect(s, record).0.recoveries == s.recoveries
  {
    hide AfterConnect, Inv;
    ConnectLeaves(s, limit, record);
  }

  /** Its attempts are spent, or something else took the entry over. */
  predicate Displaced(s: State, limit: nat, q: RecoveryId)
    requires q in s.recoveries && s.recoveries[q].ref in s.objects
  {
    s.recoveries[q].made >= limit || s.objects[s.recoveries[q].ref].recovery != Some(q)
  }

  /**
   * A recovery whose pause was over. Displaced, it ends and nothing else happens. Otherwise it has
   * made one more attempt: it asked for its node, and ends only if the node was ready.
   */
  ghost predicate Tried(s: State, t: State, limit: nat, q: RecoveryId) {
    && q in s.recoveries && s.recoveries[q].ref in s.objects
    && var rec := s.recoveries[q];
    && if Displaced(s, limit, q) then t == s.(recoveries := s.recoveries[q := rec.(stage := Over)])
       else
         && q in t.recoveries
         && var stage := t.recoveries[q].stage;
         && t.recoveries == s.recoveries[q := rec.(made := rec.made + 1, stage := stage)]
         && (stage.Over? || stage.Awaiting?)
         && Asked(s, t.(recoveries := s.recoveries), rec.record, if stage.Over? then Immediate else Awaits(stage.a))
  }

  lemma TickLeaves(s: State, limit: nat, q: RecoveryId)
    requires Inv(s, limit) && q in s.recoveries && s.recoveries[q].stage.Sleeping?
    ensures Tried(s, AfterTick(s, limit, q), limit, q)
  {
    hide NamesOk, AllReadyOk, RecoveriesOk, AfterConnect, Inv;
    ConnectionRuns.RecoveryHasEntry(s, limit, q);
    var record := s.recoveries[q].record;
    ConnectLeaves(s, limit, record);
    var m := AfterConnect(s, record).0;
    assert Asked(s, m, record, AfterConnect(s, record).1);
    assert m.(recoveries := s.recoveries) == m;
  }

  /** Every entry of the table lets go and is forgotten; what was off the table keeps what it holds. */
  ghost predicate Disposed(s: State, t: State) {
    && t.entries == map[] && t.home == s.home && t.lives == s.lives && t.forwards == s.forwards
    && t.attempts == s.attempts && t.recoveries == s.recoveries && t.objects.Keys == s.objects.Keys
    && (forall r :: r in s.objects ==>
          t.objects[r] == if Tabled(s, r) then Blank.(state := s.objects[r].state) else s.objects[r])
    && (forall x :: x in t.closedTransports <==>
          x in s.closedTransports || exists r :: r in s.objects && Tabled(s, r) && s.objects[r].transport == Some(x))
    && forall l :: l in t.closedLives <==>
         l in s.closedLives || exists r :: r in s.objects && Tabled(s, r) && s.objects[r].live == Some(l)
  }

  lemma DisposeLeaves(s: State)
    ensures Disposed(s, AfterDispose(s))
  {
  }

  lemma DisconnectLeaves(s: State, node: Node)
    requires node in s.entries && s.entries[node] in s.objects
    ensures var t := AfterDisconnect(s, node);
            LetGo(s, t, s.entries[node], Disconnected, None) && t.attempts == s.attempts && t.recoveries == s.recoveries
  {
    ClearLeaves(s, s.entries[node]);
  }
}
