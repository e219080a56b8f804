/** The connection manager itself: steps that assign the fields of its entries in place. */
module Connections {
  import opened Prelude
  import opened ConnectionState
  import opened ConnectionEffects
  import ConnectionRuns

  class NodeConnections {
    /** The table, every entry object made so far, and the node each was made for. */
    var entries: map<Node, Ref>
    var objects: map<Ref, Entry>
    var home: map<Ref, Node>
    /** Suspended runs of the connecting and recovering functions, and what handlers captured. */
    var attempts: map<AttemptId, Attempt>
    var lives: map<LiveId, Conn>
    var recoveries: map<RecoveryId, Recovery>
    var forwards: map<TransportId, AttemptId>
    var lost: set<TransportId>
    var closedTransports: set<TransportId>
    var closedLives: set<LiveId>
    var next: nat
    const recoveryAttempts: nat

    ghost function S(): State
      reads this
    {
      State(entries, objects, home, attempts, lives, recoveries, forwards, lost, closedTransports, closedLives, next)
    }

    ghost predicate Valid()
      reads this
    {
      Inv(S(), recoveryAttempts)
    }

    constructor (recoveryAttempts: nat)
      ensures S() == Init && Valid() && this.recoveryAttempts == recoveryAttempts
    {
      entries, objects, home, attempts, lives, recoveries, forwards := map[], map[], map[], map[], map[], map[], map[];
      lost, closedTransports, closedLives, next := {}, {}, {}, 0;
      this.recoveryAttempts := recoveryAttempts;
      new;
      ConnectionRuns.InitInv(recoveryAttempts);
    }

    /** The entry lets go of connection, transport and pending attempt, closing the first two. */
    method Clear(r: Ref)
      requires r in objects
      modifies this`objects, this`closedLives, this`closedTransports
      ensures S() == AfterClear(old(S()), r) && LetGo(old(S()), S(), r, old(objects[r]).state, old(objects[r]).recovery)
    {
      hide LetGo;
      ClearLeaves(S(), r);
      var e := objects[r];
      e := e.(published := None);
      e := e.(record := None);
      if e.live.Some? {
        closedLives := closedLives + {e.live.value};
      }
      e := e.(live := None);
      e := e.(pending := None);
      e := e.(info := None);
      if e.transport.Some? {
        closedTransports := closedTransports + {e.transport.value};
      }
      e := e.(transport := None);
      e := e.(localPort := None);
      objects := objects[r := e];
    }

    /** An attempt or a connection of this entry is over: it lets go and becomes `Failed`. */
    method Fail(r: Ref)
      requires r in objects
      modifies this`objects, this`closedLives, this`closedTransports
      ensures S() == AfterFail(old(S()), r) && LetGo(old(S()), S(), r, Failed, old(objects[r]).recovery)
    {
      hide LetGo;
      FailLeaves(S(), r);
      Clear(r);
      objects := objects[r := objects[r].(state := Failed)];
    }

    /** Take the entry over for a new recovery, which first sleeps. */
    method Recover(r: Ref, record: Record, cause: Cause)
      requires r in objects
      modifies this`objects, this`recoveries, this`next
      ensures S() == AfterRecover(old(S()), r, record, cause)
      ensures objects == old(objects)[r := old(objects[r]).(recovery := Some(old(next)))]
      ensures recoveries == old(recoveries)[old(next) := Recovery(r, record, 0, Sleeping, cause)]
    {
      var mine := next;
      next := next + 1;
      objects := objects[r := objects[r].(recovery := Some(mine))];
      recoveries := recoveries[mine := Recovery(r, record, 0, Sleeping, cause)];
    }

    method EntryOf(node: Node) returns (r: Ref)
      modifies this`entries, this`objects, this`home, this`next
      ensures S() == EntryFor(old(S()), node) && node in entries && r == entries[node]
    {
      if node in entries {
        return entries[node];
      }
      r := next;
      next := next + 1;
      home := home[r := node];
      objects := objects[r := Blank];
      entries := entries[node := r];
    }

    /** A caller asks for the node: it is ready, an attempt is awaited, or a new one begins. */
    method ConnectRecord(record: Record) returns (answer: Answer)
      requires Valid()
      modifies this
      ensures Valid() && S() == Step(old(S()), recoveryAttempts, Connect(record))
      ensures answer == AfterConnect(old(S()), record).1 && Asked(old(S()), S(), record, answer)
      ensures record.node in entries && entries[record.node] in objects
      ensures answer.Immediate? ==> objects[entries[record.node]].state.Ready?
      ensures answer.Awaits? ==> objects[entries[record.node]].pending == Some(answer.a)
    {
      hide Inv, EntryFor, Asked;
      ConnectLeaves(S(), recoveryAttempts, record);
      ConnectionRuns.StepKeepsInv(S(), recoveryAttempts, Connect(record));
      ConnectionRuns.ConnectAnswers(S(), recoveryAttempts, record);
      ConnectionRuns.EntryIsBacked(S(), recoveryAttempts, record.node);
      var r := EntryOf(record.node);
      var e := objects[r];
      if e.state.Ready? && e.info.Some? {
        return Immediate;
      }
      if e.pending.Some? {
        return Awaits(e.pending.value);
      }
      e := e.(state := Connecting);
      var attempt := next;
      next := next + 1;
      attempts := attempts[attempt := Attempt(r, record, Opening)];
      e := e.(pending := Some(attempt));
      objects := objects[r := e];
      return Awaits(attempt);
    }

    /** The transport of an attempt is open. */
    method OnOpened(a: AttemptId, t: TransportId, port: nat)
      requires Valid() && a in attempts && attempts[a].progress.Opening?
      modifies this
      ensures Valid() && S() == Step(old(S()), recoveryAttempts, TransportOpened(a, t, port)) && Opened(old(S()), S(), a, t, port)
    {
      hide Inv, Opened;
      OpenedLeaves(S(), recoveryAttempts, a, t, port);
      ConnectionRuns.StepKeepsInv(S(), recoveryAttempts, TransportOpened(a, t, port));
      ConnectionRuns.AttemptHasEntry(S(), recoveryAttempts, a);
      var r := attempts[a].ref;
      objects := objects[r := objects[r].(transport := Some(t))];
      attempts := attempts[a := attempts[a].(progress := Dialing(t, port))];
      forwards := forwards[t := a];
    }

    /** The daemon answered: the node is ready. */
    method OnHandshake(a: AttemptId, info: nat)
      requires Valid() && a in attempts && attempts[a].progress.Dialing?
      modifies this
      ensures Valid() && S() == Step(old(S()), recoveryAttempts, Handshake(a, info)) && Connected(old(S()), S(), a, info)
    {
      hide Inv, Connected;
      HandshakeLeaves(S(), recoveryAttempts, a, info);
      ConnectionRuns.StepKeepsInv(S(), recoveryAttempts, Handshake(a, info));
      ConnectionRuns.AttemptHasEntry(S(), recoveryAttempts, a);
      var attempt := attempts[a];
      var live := next;
      next := next + 1;
      var e := objects[attempt.ref];
      e := e.(live := Some(live));
      e := e.(published := Some(live));
      e := e.(info := Some(info));
      e := e.(localPort := if attempt.record.ssh then Some(attempt.progress.port) else None);
      e := e.(pending := None);
      e := e.(record := Some(attempt.record));
      e := e.(state := Ready);
      objects := objects[attempt.ref := e];
      lives := lives[live := Conn(attempt.ref, attempt.record, a, attempt.progress.t)];
      attempts := attempts[a := attempt.(progress := Succeeded(live, attempt.progress.t))];
    }

    /** An attempt failed; it settles the entry, whatever failed. */
    method OnAttemptFailed(a: AttemptId)
      requires Valid() && a in attempts && (attempts[a].progress.Opening? || attempts[a].progress.Dialing?)
      modifies this
      ensures Valid() && S() == Step(old(S()), recoveryAttempts, AttemptFails(a))
      ensures old(attempts[a]).ref in old(objects)
      ensures var r := old(attempts[a]).ref; LetGo(old(S()), S(), r, Failed, old(objects)[r].recovery)
      ensures attempts == old(attempts)[a := old(attempts[a]).(progress := Fell)] && recoveries == old(recoveries)
    {
      hide Inv, LetGo;
      AttemptFailsLeaves(S(), recoveryAttempts, a);
      ConnectionRuns.StepKeepsInv(S(), recoveryAttempts, AttemptFails(a));
      ConnectionRuns.AttemptHasEntry(S(), recoveryAttempts, a);
      attempts := attempts[a := attempts[a].(progress := Fell)];
      Fail(attempts[a].ref);
    }

    /** The forward a connection went through has closed. */
    method OnForwardExit(l: LiveId)
      requires Valid() && l in lives
      modifies this
      ensures Valid() && S() == Step(old(S()), recoveryAttempts, ForwardExits(l))
      ensures lives[l].ref in objects && lives[l].ref in old(objects)
      ensures var t := lives[l].transport;
        if t !in old(lost) && old(objects)[lives[l].ref].transport == Some(t) then
          lost == old(lost) + {t} && Lost(old(S()), S(), lives[l].ref, lives[l].record, Exited(t))
        else S() == old(S())
    {
      hide Inv, AfterFail, AfterRecover, Lost;
      ConnectionRuns.StepKeepsInv(S(), recoveryAttempts, ForwardExits(l));
      ConnectionRuns.LiveHasEntry(S(), recoveryAttempts, l);
      var c := lives[l];
      if c.transport in lost || objects[c.ref].transport != Some(c.transport) {
        return;
      }
      lost := lost + {c.transport};
      ConnectionRuns.FailKeepsObjects(S(), c.ref);
      NamesAreFree(old(S()), recoveryAttempts, 0);
      LossLeaves(S(), c.ref, c.record, Exited(c.transport));
      LostAlsoBefore(old(S()), S(), AfterRecover(AfterFail(S(), c.ref), c.ref, c.record, Exited(c.transport)), c.ref, c.record, Exited(c.transport));
      Fail(c.ref);
      Recover(c.ref, c.record, Exited(c.transport));
    }

    /** A request failed without an answer from the daemon. */
    method OnRequestFailed(l: LiveId)
      requires Valid() && l in lives
      modifies this
      ensures Valid() && S() == Step(old(S()), recoveryAttempts, RequestFails(l))
      ensures lives[l].ref in objects && lives[l].ref in old(objects)
      ensures if old(objects)[lives[l].ref].live == Some(l) then
                lost == old(lost) && Lost(old(S()), S(), lives[l].ref, lives[l].record, Dropped(l))
              else S() == old(S())
    {
      hide Inv, AfterFail, AfterRecover, Lost;
      ConnectionRuns.StepKeepsInv(S(), recoveryAttempts, RequestFails(l));
      ConnectionRuns.LiveHasEntry(S(), recoveryAttempts, l);
      var c := lives[l];
      if objects[c.ref].live == Some(l) {
        ConnectionRuns.FailKeepsObjects(S(), c.ref);
        NamesAreFree(S(), recoveryAttempts, 0);
        LossLeaves(S(), c.ref, c.record, Dropped(l));
        Fail(c.ref);
        Recover(c.ref, c.record, Dropped(l));
      }
    }

    /** The pause of a recovery is over: unless something took the entry over, try again. */
    method OnTick(q: RecoveryId)
      requires Valid() && q in recoveries && recoveries[q].stage.Sleeping?
      modifies this
      ensures Valid() && S() == Step(old(S()), recoveryAttempts, RecoveryTick(q)) && Tried(old(S()), S(), recoveryAttempts, q)
    {
      hide Tried, Asked, Inv, AfterConnect;
      TickLeaves(S(), recoveryAttempts, q);
      ConnectionRuns.StepKeepsInv(S(), recoveryAttempts, RecoveryTick(q));
      ConnectionRuns.RecoveryHasEntry(S(), recoveryAttempts, q);
      var rec := recoveries[q];
      if rec.made >= recoveryAttempts || objects[rec.ref].recovery != Some(q) {
        recoveries := recoveries[q := rec.(stage := Over)];
        return;
      }
      ConnectingRecoversNothing(S(), recoveryAttempts, rec.record);
      var answer := ConnectRecord(rec.record);
      recoveries := recoveries[q := rec.(made := rec.made + 1, stage := if answer.Immediate? then Over else Awaiting(answer.a))];
    }

    /** The attempt a recovery awaited is over. */
    method OnResume(q: RecoveryId)
      requires Valid() && q in recoveries && recoveries[q].stage.Awaiting?
      requires recoveries[q].stage.a in attempts && !InFlight(attempts[recoveries[q].stage.a])
      modifies this
      ensures Valid() && S() == Step(old(S()), recoveryAttempts, RecoveryResumes(q))
      ensures q in recoveries && recoveries[q].made == old(recoveries[q].made) && !recoveries[q].stage.Awaiting?
      ensures recoveries[q].stage.Over? <==> attempts[old(recoveries[q].stage.a)].progress.Succeeded?
      ensures recoveries == old(recoveries)[q := recoveries[q]] && recoveries[q] == old(recoveries[q]).(stage := recoveries[q].stage)
      ensures unchanged(`objects, `entries, `attempts, `lives)
    {
      hide Inv;
      ConnectionRuns.StepKeepsInv(S(), recoveryAttempts, RecoveryResumes(q));
      var rec := recoveries[q];
      if attempts[rec.stage.a].progress.Succeeded? {
        recoveries := recoveries[q := rec.(stage := Over)];
      } else {
        recoveries := recoveries[q := rec.(stage := Sleeping)];
      }
    }

    method Disconnect(node: Node)
      requires Valid()
      modifies this
      ensures Valid() && S() == Step(old(S()), recoveryAttempts, ConnectionState.Disconnect(node))
      ensures node in entries ==>
        && entries[node] in objects && entries[node] in old(objects)
        && var was, e := old(objects)[entries[node]], objects[entries[node]];
        && e == Blank.(state := Disconnected)
        && AsSet(was.transport) <= closedTransports && AsSet(was.live) <= closedLives
        && LetGo(old(S()), S(), entries[node], Disconnected, None) && attempts == old(attempts) && recoveries == old(recoveries)
      ensures node !in entries ==> S() == old(S())
    {
      if node in entries && entries[node] in objects { DisconnectLeaves(S(), node); }
      hide LetGo, AllReadyOk, RecoveriesOk, BoundsOk, HoldsOk;
      ConnectionRuns.StepKeepsInv(S(), recoveryAttempts, ConnectionState.Disconnect(node));
      if node !in entries {
        return;
      }
      var r := entries[node];
      Retire(r);
      objects := objects[r := objects[r].(state := Disconnected)];
      assert objects == AfterDisconnect(old(S()), node).objects;
    }

    method Channel(node: Node) returns (live: Option<LiveId>)
      requires Valid()
      ensures live.Some? <==> node in entries && entries[node] in objects && objects[entries[node]].state.Ready?
      ensures live.Some? ==> objects[entries[node]].live == live
    {
      hide RecoveriesOk;
      if node !in entries {
        return None;
      }
      assert ReadyOk(objects[entries[node]]);
      return objects[entries[node]].published;
    }

    /** The entry's retry ends, and it lets go. */
    method Retire(r: Ref)
      requires r in objects
      modifies this`objects, this`closedLives, this`closedTransports
      ensures S() == AfterClear(old(S()).(objects := old(objects)[r := old(objects[r]).(recovery := None)]), r)
    {
      hide AfterClear, LetGo;
      objects := objects[r := objects[r].(recovery := None)];
      Clear(r);
    }

    /** End every connection and every retry, and forget the entries. */
    method Dispose()
      requires Valid()
      modifies this
      ensures Valid() && S() == Step(old(S()), recoveryAttempts, ConnectionState.Dispose) && Disposed(old(S()), S())
    {
      hide Disposed, LetGo, Inv, AfterDispose, AfterClear, ConnectionRuns.Disposing;
      DisposeLeaves(S());
      ConnectionRuns.StepKeepsInv(S(), recoveryAttempts, ConnectionState.Dispose);
      ConnectionRuns.TableIsBacked(S(), recoveryAttempts);
      ghost var s := S();
      ConnectionRuns.DisposingNone(s);
      var rest := entries.Keys;
      while rest != {}
        invariant rest <= entries.Keys && entries == s.entries && objects.Keys == s.objects.Keys
        invariant S() == ConnectionRuns.Disposing(s, rest)
        decreases |rest|
      {
        var node :| node in rest;
        var r := entries[node];
        ConnectionRuns.DisposingOne(s, rest, node);
        Retire(r);
        rest := rest - {node};
        assert S() == ConnectionRuns.Disposing(s, rest);
      }
      entries := map[];
      ConnectionRuns.DisposingAll(s);
    }
  }
}
