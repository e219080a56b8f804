/**
 * Spawning against closing: how the agent's process and terminal tables hand every child
 * either to the table or to its own disposal. Both backends run this one protocol.
 */
module SpawnTable {
  import opened Prelude

  /** A spawn call, which also names the child it started. */
  type Id = nat

  /** Where one spawn call is after it has started its child. */
  datatype Spawn = Forked | Locked | Saw(closed: bool) | Sealed | Returned

  /** Where one close call is. */
  datatype Close = Entered | Flagged | Holding | Disposing(pending: set<Id>) | Closed

  datatype Owner = Spawner(id: Id) | Closer(id: Id)

  datatype State = State(
    closed: bool,
    lock: Option<Owner>,
    table: set<Id>,
    spawns: map<Id, Spawn>,
    closes: map<Id, Close>,
    disposals: multiset<Id>)

  const Init := State(false, None, {}, map[], map[], multiset{})

  datatype Event =
    | StartSpawn(id: Id)
    | LockForSpawn(id: Id)
    | LoadFlag(id: Id)
    | Decide(id: Id)
    | DisposeSealed(id: Id)
    | StartClose(c: Id)
    | StoreFlag(c: Id)
    | LockForClose(c: Id)
    | Drain(c: Id)
    | DisposeDrained(c: Id, id: Id)
    | FinishClose(c: Id)

  /** The spawn steps; each is one atomic access, and the flag is not guarded by the lock. */
  function SpawnStep(s: State, e: Event): State {
    match e
    case StartSpawn(id) =>
      if id in s.spawns then s else s.(spawns := s.spawns[id := Forked])
    case LockForSpawn(id) =>
      if id in s.spawns && s.spawns[id].Forked? && s.lock.None? then
        s.(lock := Some(Spawner(id)), spawns := s.spawns[id := Locked])
      else s
    case LoadFlag(id) =>
      if id in s.spawns && s.spawns[id].Locked? then s.(spawns := s.spawns[id := Saw(s.closed)]) else s
    case Decide(id) =>
      if id !in s.spawns || !s.spawns[id].Saw? then s
      else if s.spawns[id].closed then s.(lock := None, spawns := s.spawns[id := Sealed])
      else s.(lock := None, table := s.table + {id}, spawns := s.spawns[id := Returned])
    case DisposeSealed(id) =>
      if id in s.spawns && s.spawns[id].Sealed? then
        s.(spawns := s.spawns[id := Returned], disposals := s.disposals + multiset{id})
      else s
    case _ => s
  }

  function CloseStep(s: State, e: Event): State {
    match e
    case StartClose(c) =>
      if c in s.closes then s else s.(closes := s.closes[c := Entered])
    case StoreFlag(c) =>
      if c in s.closes && s.closes[c].Entered? then s.(closed := true, closes := s.closes[c := Flagged]) else s
    case LockForClose(c) =>
      if c in s.closes && s.closes[c].Flagged? && s.lock.None? then
        s.(lock := Some(Closer(c)), closes := s.closes[c := Holding])
      else s
    case Drain(c) =>
      if c in s.closes && s.closes[c].Holding? then
        s.(lock := None, table := {}, closes := s.closes[c := Disposing(s.table)])
      else s
    case DisposeDrained(c, id) =>
      if c in s.closes && s.closes[c].Disposing? && id in s.closes[c].pending then
        s.(closes := s.closes[c := Disposing(s.closes[c].pending - {id})], disposals := s.disposals + multiset{id})
      else s
    case FinishClose(c) =>
      if c in s.closes && s.closes[c] == Disposing({}) then s.(closes := s.closes[c := Closed]) else s
    case _ => s
  }

  predicate IsSpawnEvent(e: Event) {
    e.StartSpawn? || e.LockForSpawn? || e.LoadFlag? || e.Decide? || e.DisposeSealed?
  }

  function Step(s: State, e: Event): State { if IsSpawnEvent(e) then SpawnStep(s, e) else CloseStep(s, e) }

  function Run(s: State, schedule: seq<Event>): State {
    if schedule == [] then s else Step(Run(s, schedule[..|schedule| - 1]), schedule[|schedule| - 1])
  }

  // ------------------------------------------------------------------ what is invariant

  function Pending(c: Close): set<Id> { if c.Disposing? then c.pending else {} }

  predicate PastDrain(c: Close) { c.Disposing? || c.Closed? }

  /** The lock is held by the task that says it holds it, and by nobody else. */
  ghost predicate LockOk(s: State) {
    && (forall id :: id in s.spawns ==>
          (s.spawns[id].Locked? || s.spawns[id].Saw? <==> s.lock == Some(Spawner(id))))
    && (forall c :: c in s.closes ==> (s.closes[c].Holding? <==> s.lock == Some(Closer(c))))
    && (s.lock.Some? && s.lock.value.Spawner? ==> s.lock.value.id in s.spawns)
    && (s.lock.Some? && s.lock.value.Closer? ==> s.lock.value.id in s.closes)
  }

  /** Once a close has drained, the flag is up, the table is empty and nobody will fill it. */
  ghost predicate SealedOk(s: State) {
    && (forall c :: c in s.closes && !s.closes[c].Entered? ==> s.closed)
    && (forall c :: c in s.closes && PastDrain(s.closes[c]) ==>
          && s.table == {}
          && forall id :: id in s.spawns ==> s.spawns[id] != Saw(false))
  }

  /** Where one started child is owned: an undecided spawn, the table, a drain, or nowhere. */
  ghost predicate OwnedOk(s: State, id: Id)
    requires id in s.spawns
  {
    && s.disposals[id] <= 1
    && (!s.spawns[id].Returned? ==> s.disposals[id] == 0 && id !in s.table)
    && (id in s.table ==> s.disposals[id] == 0)
    && (forall c :: c in s.closes && id in Pending(s.closes[c]) ==>
          && s.spawns[id].Returned? && s.disposals[id] == 0 && id !in s.table
          && forall c' :: c' in s.closes && id in Pending(s.closes[c']) ==> c' == c)
    && (s.spawns[id].Returned? && s.disposals[id] == 0 && id !in s.table ==>
          exists c :: c in s.closes && id in Pending(s.closes[c]))
  }

  ghost predicate Inv(s: State) {
    && LockOk(s)
    && SealedOk(s)
    && s.table <= s.spawns.Keys
    && (forall c :: c in s.closes ==> Pending(s.closes[c]) <= s.spawns.Keys)
    && (forall id :: id in s.disposals ==> id in s.spawns)
    && forall id :: id in s.spawns ==> OwnedOk(s, id)
  }

  lemma InitInv()
    ensures Inv(Init)
  {
  }

  lemma LockKeptBySpawn(s: State, e: Event)
    requires LockOk(s) && IsSpawnEvent(e)
    ensures LockOk(SpawnStep(s, e))
  {
  }

  lemma LockKeptByClose(s: State, e: Event)
    requires LockOk(s) && !IsSpawnEvent(e)
    ensures LockOk(CloseStep(s, e))
  {
  }

  lemma SealedKeptBySpawn(s: State, e: Event)
    requires SealedOk(s) && IsSpawnEvent(e)
    ensures SealedOk(SpawnStep(s, e))
  {
  }

  lemma SealedKeptByClose(s: State, e: Event)
    requires SealedOk(s) && LockOk(s) && !IsSpawnEvent(e)
    ensures SealedOk(CloseStep(s, e))
  {
  }

  /** What a child's ownership depends on. */
  lemma OwnedDependsOn(s: State, s': State, id: Id)
    requires id in s.spawns && id in s'.spawns && OwnedOk(s, id)
    requires s'.spawns[id].Returned? == s.spawns[id].Returned? && s'.closes == s.closes
    requires s'.disposals[id] == s.disposals[id] && (id in s'.table <==> id in s.table)
    ensures OwnedOk(s', id)
  {
  }

  lemma OwnedAfterDecide(s: State, id: Id)
    requires Inv(s) && id in s.spawns
    ensures OwnedOk(SpawnStep(s, Decide(id)), id)
  {
  }

  lemma OwnedAfterDispose(s: State, id: Id)
    requires Inv(s) && id in s.spawns
    ensures OwnedOk(SpawnStep(s, DisposeSealed(id)), id)
  {
  }

  lemma OwnedWhenNew(s: State, id: Id)
    requires Inv(s) && id !in s.spawns
    ensures OwnedOk(SpawnStep(s, StartSpawn(id)), id)
  {
  }

  lemma OwnedKeptBySpawn(s: State, e: Event, id: Id)
    requires Inv(s) && IsSpawnEvent(e) && id in SpawnStep(s, e).spawns
    ensures OwnedOk(SpawnStep(s, e), id)
  {
    hide LockOk, SealedOk, OwnedOk;
    if id !in s.spawns {
      OwnedWhenNew(s, id);
    } else if e == Decide(id) {
      OwnedAfterDecide(s, id);
    } else if e == DisposeSealed(id) {
      OwnedAfterDispose(s, id);
    } else {
      OwnedDependsOn(s, SpawnStep(s, e), id);
    }
  }

  lemma OwnedKeptByClose(s: State, e: Event, id: Id)
    requires Inv(s) && !IsSpawnEvent(e) && id in s.spawns
    ensures OwnedOk(CloseStep(s, e), id)
  {
    hide LockOk, SealedOk, OwnedOk;
    assert OwnedOk(s, id);
    var s' := CloseStep(s, e);
    match e
    case StartClose(c) => PendingElsewhere(s, s', c, id);
    case StoreFlag(c) => PendingElsewhere(s, s', c, id);
    case LockForClose(c) => PendingElsewhere(s, s', c, id);
    case FinishClose(c) => PendingElsewhere(s, s', c, id);
    case Drain(c) => OwnedAfterDrain(s, c, id);
    case DisposeDrained(c, x) => OwnedAfterDisposeDrained(s, c, x, id);
  }

  /** A drain takes over every child of the table. */
  lemma OwnedAfterDrain(s: State, c: Id, id: Id)
    requires id in s.spawns && OwnedOk(s, id)
    ensures OwnedOk(CloseStep(s, Drain(c)), id)
  {
    var s' := CloseStep(s, Drain(c));
    if s' != s && s'.spawns[id].Returned? && s'.disposals[id] == 0 {
      if id in s.table {
        assert id in Pending(s'.closes[c]);
      } else {
        var d :| d in s.closes && id in Pending(s.closes[d]);
        assert id in Pending(s'.closes[d]);
      }
    }
  }

  /** Disposing one drained child leaves the others where they are. */
  lemma OwnedAfterDisposeDrained(s: State, c: Id, x: Id, id: Id)
    requires id in s.spawns && OwnedOk(s, id)
    ensures OwnedOk(CloseStep(s, DisposeDrained(c, x)), id)
  {
    var s' := CloseStep(s, DisposeDrained(c, x));
    if s' != s && s'.spawns[id].Returned? && s'.disposals[id] == 0 && id !in s'.table {
      var d :| d in s.closes && id in Pending(s.closes[d]);
      assert id in Pending(s'.closes[d]);
    }
  }

  /** A close step that moves no child leaves every child where it was. */
  lemma PendingElsewhere(s: State, s': State, c: Id, id: Id)
    requires id in s.spawns && OwnedOk(s, id)
    requires s'.spawns == s.spawns && s'.table == s.table && s'.disposals == s.disposals
    requires s'.closes.Keys == s.closes.Keys + (if s' == s then {} else {c})
    requires forall d :: d in s'.closes && (d != c || s' == s) ==> d in s.closes && s'.closes[d] == s.closes[d]
    requires s' != s ==> Pending(s'.closes[c]) == {} && (c in s.closes ==> Pending(s.closes[c]) == {})
    ensures OwnedOk(s', id)
  {
  }

  lemma StepKeepsInv(s: State, e: Event)
    requires Inv(s)
    ensures Inv(Step(s, e))
  {
    hide LockOk, SealedOk, OwnedOk, CloseStep, SpawnStep;
    if IsSpawnEvent(e) {
      LockKeptBySpawn(s, e);
      SealedKeptBySpawn(s, e);
      forall id | id in SpawnStep(s, e).spawns ensures OwnedOk(SpawnStep(s, e), id) {
        OwnedKeptBySpawn(s, e, id);
      }
      SpawnKeepsDomains(s, e);
    } else {
      LockKeptByClose(s, e);
      SealedKeptByClose(s, e);
      CloseKeepsDomains(s, e);
      forall id | id in s.spawns ensures OwnedOk(CloseStep(s, e), id) {
        OwnedKeptByClose(s, e, id);
      }
    }
  }

  lemma SpawnKeepsDomains(s: State, e: Event)
    requires Inv(s) && IsSpawnEvent(e)
    ensures var s' := SpawnStep(s, e);
            && s.spawns.Keys <= s'.spawns.Keys && s'.closes == s.closes
            && s'.table <= s'.spawns.Keys
            && (forall id :: id in s'.disposals ==> id in s'.spawns)
  {
    hide LockOk, SealedOk, OwnedOk;
  }

  lemma CloseKeepsDomains(s: State, e: Event)
    requires Inv(s) && !IsSpawnEvent(e)
    ensures var s' := CloseStep(s, e);
            && s'.spawns == s.spawns && s'.table <= s.table
            && (forall id :: id in s'.disposals ==> id in s'.spawns)
            && (forall c :: c in s'.closes ==> Pending(s'.closes[c]) <= s'.spawns.Keys)
  {
    hide LockOk, SealedOk, OwnedOk;
    var s' := CloseStep(s, e);
    if e.DisposeDrained? && s' != s {
      assert e.id in Pending(s.closes[e.c]);
    }
    forall c | c in s'.closes ensures Pending(s'.closes[c]) <= s'.spawns.Keys {
      if c != e.c || s' == s { assert s'.closes[c] == s.closes[c]; }
    }
  }

  lemma {:induction false} RunKeepsInv(s: State, schedule: seq<Event>)
    requires Inv(s)
    ensures Inv(Run(s, schedule))
  {
    hide Inv, Step;
    if schedule != [] {
      var n := |schedule| - 1;
      RunKeepsInv(s, schedule[..n]);
      StepKeepsInv(Run(s, schedule[..n]), schedule[n]);
    }
  }

  // ------------------------------------------------------------------- over whole runs

  /** Every started call has finished and at least one of them was a close. */
  ghost predicate Quiet(s: State) {
    && (forall id :: id in s.spawns ==> s.spawns[id].Returned?)
    && (forall c :: c in s.closes ==> s.closes[c].Closed?)
    && s.closes != map[]
  }

  /** Nothing outlives the connection: the table is empty and each child was disposed once. */
  lemma NothingOutlivesClose(schedule: seq<Event>)
    requires Quiet(Run(Init, schedule))
    ensures var s := Run(Init, schedule);
            s.table == {} && s.disposals == multiset(s.spawns.Keys)
  {
    hide Run, LockOk;
    InitInv();
    RunKeepsInv(Init, schedule);
    var s := Run(Init, schedule);
    var c :| c in s.closes;
    assert PastDrain(s.closes[c]);
    forall id | id in s.spawns ensures s.disposals[id] == 1 {
      assert OwnedOk(s, id);
      forall c | c in s.closes ensures id !in Pending(s.closes[c]) { assert s.closes[c].Closed?; }
    }
    assert forall id :: id !in s.spawns ==> s.disposals[id] == 0;
  }

  /** A close has emptied the table. */
  ghost predicate Drained(s: State) { exists c :: c in s.closes && PastDrain(s.closes[c]) }

  /** After the first drain nothing is published again, in any continuation of the run. */
  lemma {:induction false} NothingPublishedAfterDrain(s: State, schedule: seq<Event>)
    requires Inv(s) && Drained(s)
    ensures Run(s, schedule).table == {} && Drained(Run(s, schedule))
  {
    if schedule == [] {
      DrainedIsEmpty(s);
    } else {
      hide Inv, Step, Drained;
      var n := |schedule| - 1;
      NothingPublishedAfterDrain(s, schedule[..n]);
      RunKeepsInv(s, schedule);
      DrainedForGood(Run(s, schedule[..n]), schedule[n]);
      DrainedIsEmpty(Run(s, schedule));
    }
  }

  lemma DrainedIsEmpty(s: State)
    requires Inv(s) && Drained(s)
    ensures s.table == {}
  {
  }

  lemma DrainedForGood(s: State, e: Event)
    requires Drained(s)
    ensures Drained(Step(s, e))
  {
    var c :| c in s.closes && PastDrain(s.closes[c]);
    assert c in Step(s, e).closes && PastDrain(Step(s, e).closes[c]);
  }

  // ----------------------------------------------------------- while nobody has closed

  /** Some close call that was made has stored its flag. */
  ghost predicate FlagStored(schedule: seq<Event>) {
    schedule != [] &&
      var n := |schedule| - 1;
      FlagStored(schedule[..n]) || (schedule[n].StoreFlag? && StartClose(schedule[n].c) in schedule[..n])
  }

  /** Which calls were made and whether the flag is up, told from the events alone. */
  ghost predicate CallsTell(s: State, schedule: seq<Event>) {
    && (forall id :: id in s.spawns <==> StartSpawn(id) in schedule)
    && (forall c :: c in s.closes <==> StartClose(c) in schedule)
    && (s.closed <==> FlagStored(schedule))
    && forall c :: c in s.closes && !s.closes[c].Entered? ==> s.closed
  }

  /** Nothing is sealed, drained or disposed before the flag is up. */
  ghost predicate OpenOk(s: State) {
    !s.closed ==>
      && (forall id :: id in s.spawns ==> !s.spawns[id].Sealed? && s.spawns[id] != Saw(true))
      && (forall id :: id in s.spawns && s.spawns[id].Returned? ==> id in s.table)
      && s.disposals == multiset{}
      && forall c :: c in s.closes ==> s.closes[c].Entered?
  }

  lemma StepKeepsOpen(s: State, e: Event)
    requires OpenOk(s)
    ensures OpenOk(Step(s, e))
  {
  }

  lemma StepTells(s: State, schedule: seq<Event>, e: Event)
    requires CallsTell(s, schedule)
    ensures CallsTell(Step(s, e), schedule + [e])
  {
    hide Step;
    StepMakesCalls(s, e);
    assert (schedule + [e])[..|schedule|] == schedule;
    assert forall x :: x in schedule + [e] <==> x in schedule || x == e;
  }

  lemma StepMakesCalls(s: State, e: Event)
    requires forall c :: c in s.closes && !s.closes[c].Entered? ==> s.closed
    ensures var s' := Step(s, e);
      && (forall id :: id in s'.spawns <==> id in s.spawns || e == StartSpawn(id))
      && (forall c :: c in s'.closes <==> c in s.closes || e == StartClose(c))
      && (s'.closed <==> s.closed || (e.StoreFlag? && e.c in s.closes))
      && forall c :: c in s'.closes && !s'.closes[c].Entered? ==> s'.closed
  {
  }

  lemma {:induction false} RunTells(schedule: seq<Event>)
    ensures CallsTell(Run(Init, schedule), schedule) && OpenOk(Run(Init, schedule))
  {
    if schedule != [] {
      hide CallsTell, OpenOk, Step;
      var n := |schedule| - 1;
      RunTells(schedule[..n]);
      StepTells(Run(Init, schedule[..n]), schedule[..n], schedule[n]);
      StepKeepsOpen(Run(Init, schedule[..n]), schedule[n]);
      assert schedule[..n] + [schedule[n]] == schedule;
    }
  }

  /**
   * Until some close has stored its flag, every spawn that returned is in the table and no child
   * has been disposed or is about to be. The flag is up exactly when a close has stored it.
   */
  lemma PublishedUntilClosed(schedule: seq<Event>)
    ensures var s := Run(Init, schedule);
      && (s.closed <==> FlagStored(schedule))
      && (forall id :: id in s.spawns <==> StartSpawn(id) in schedule)
      && (!FlagStored(schedule) ==>
            && s.disposals == multiset{}
            && forall id :: id in s.spawns ==> !s.spawns[id].Sealed? && (s.spawns[id].Returned? ==> id in s.table))
  {
    hide Run, FlagStored;
    RunTells(schedule);
  }

  /** A spawn that finds the lock free publishes its child, or disposes of it once the flag is up. */
  lemma SpawnGetsThrough(s: State, id: Id)
    requires id in s.spawns && s.spawns[id].Forked? && s.lock.None?
    ensures Run(s, [LockForSpawn(id), LoadFlag(id), Decide(id), DisposeSealed(id)])
         == s.(spawns := s.spawns[id := Returned],
               table := if s.closed then s.table else s.table + {id},
               disposals := if s.closed then s.disposals + multiset{id} else s.disposals)
  {
    var a, b, c, d := LockForSpawn(id), LoadFlag(id), Decide(id), DisposeSealed(id);
    RunFour(s, a, b, c, d);
    hide Run;
    var s2 := s.(lock := Some(Spawner(id)), spawns := s.spawns[id := Saw(s.closed)]);
    assert s.spawns[id := Locked][id := Saw(s.closed)] == s2.spawns;
    assert Step(Step(s, a), b) == s2;
    assert s.spawns[id := Saw(s.closed)][id := Returned] == s.spawns[id := Returned];
    assert s.spawns[id := Saw(s.closed)][id := Sealed] == s.spawns[id := Sealed];
    assert s.spawns[id := Sealed][id := Returned] == s.spawns[id := Returned];
  }

  lemma RunFour(s: State, a: Event, b: Event, c: Event, d: Event)
    ensures Run(s, [a, b, c, d]) == Step(Step(Step(Step(s, a), b), c), d)
  {
    hide Step;
    assert [a, b, c, d][..3] == [a, b, c] && [a, b, c][..2] == [a, b] && [a, b][..1] == [a] && [a][..0] == [];
    assert Run(s, []) == s && Run(s, [a]) == Step(s, a) && Run(s, [a, b]) == Step(Step(s, a), b);
  }

  /** A call that was made before takes a step. */
  ghost predicate Moves(s: State, e: Event) { !e.StartSpawn? && !e.StartClose? && Step(s, e) != s }

  /** While some call is unfinished, some call can take a step. */
  lemma NeverStuck(s: State)
    requires Inv(s)
    requires (exists id :: id in s.spawns && !s.spawns[id].Returned?) || exists c :: c in s.closes && !s.closes[c].Closed?
    ensures exists e: Event :: Moves(s, e)
  {
    hide OwnedOk, SealedOk;
    if s.lock.Some? {
      HolderMoves(s);
    } else if id :| id in s.spawns && !s.spawns[id].Returned? {
      SpawnerMoves(s, id);
    } else {
      var c :| c in s.closes && !s.closes[c].Closed?;
      CloserMoves(s, c);
    }
  }

  lemma HolderMoves(s: State)
    requires LockOk(s) && s.lock.Some?
    ensures exists e: Event :: Moves(s, e)
  {
    match s.lock.value
    case Spawner(id) => assert Moves(s, if s.spawns[id].Locked? then LoadFlag(id) else Decide(id));
    case Closer(c) => assert Moves(s, Drain(c));
  }

  lemma SpawnerMoves(s: State, id: Id)
    requires LockOk(s) && s.lock.None? && id in s.spawns && !s.spawns[id].Returned?
    ensures exists e: Event :: Moves(s, e)
  {
    assert Moves(s, if s.spawns[id].Forked? then LockForSpawn(id) else DisposeSealed(id));
  }

  lemma CloserMoves(s: State, c: Id)
    requires LockOk(s) && s.lock.None? && c in s.closes && !s.closes[c].Closed?
    ensures exists e: Event :: Moves(s, e)
  {
    match s.closes[c]
    case Entered => assert Moves(s, StoreFlag(c));
    case Flagged => assert Moves(s, LockForClose(c));
    case Holding =>
    case Disposing(pending) =>
      if id :| id in pending {
        assert id !in Disposing(pending - {id}).pending;
        assert Moves(s, DisposeDrained(c, id));
      } else {
        assert pending == {};
        assert Moves(s, FinishClose(c));
      }
    case Closed =>
  }
}
