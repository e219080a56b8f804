/**
 * The connection manager as a state machine. Asynchronous functions run from one await to the
 * next without interruption, so each such stretch is one step.
 */
module ConnectionState {
  import opened Prelude

  type Node = nat
  type Ref = nat
  type AttemptId = nat
  type LiveId = nat
  type TransportId = nat
  type RecoveryId = nat

  datatype Phase = Idle | Connecting | Ready | Failed | Disconnected

  datatype Record = Record(node: Node, ssh: bool)

  /** One entry; `published` is the channel made for a live connection, named by it. */
  datatype Entry = Entry(
    state: Phase,
    info: Option<nat>,
    live: Option<LiveId>,
    pending: Option<AttemptId>,
    transport: Option<TransportId>,
    localPort: Option<nat>,
    recovery: Option<RecoveryId>,
    published: Option<LiveId>,
    record: Option<Record>)

  /** An attempt is opening its transport, dialing through it, or over. */
  datatype Progress = Opening | Dialing(t: TransportId, port: nat) | Succeeded(l: LiveId, t: TransportId) | Fell

  /** One run of the connecting function; it holds its entry, which a disposal may orphan. */
  datatype Attempt = Attempt(ref: Ref, record: Record, progress: Progress)

  /** A live connection, with what its handlers captured. */
  datatype Conn = Conn(ref: Ref, record: Record, attempt: AttemptId, transport: TransportId)

  /** A loss is a failed request on a connection, or the exit of a forward. */
  datatype Cause = Dropped(l: LiveId) | Exited(t: TransportId)

  datatype Stage = Sleeping | Awaiting(a: AttemptId) | Over

  datatype Recovery = Recovery(ref: Ref, record: Record, made: nat, stage: Stage, cause: Cause)

  /** `home` remembers which node each entry was made for. */
  datatype State = State(
    entries: map<Node, Ref>,
    objects: map<Ref, Entry>,
    home: map<Ref, Node>,
    attempts: map<AttemptId, Attempt>,
    lives: map<LiveId, Conn>,
    recoveries: map<RecoveryId, Recovery>,
    forwards: map<TransportId, AttemptId>,
    lost: set<TransportId>,
    closedTransports: set<TransportId>,
    closedLives: set<LiveId>,
    next: nat)

  const Init := State(map[], map[], map[], map[], map[], map[], map[], {}, {}, {}, 0)

  const Blank := Entry(Idle, None, None, None, None, None, None, None, None)

  datatype Event =
    | Connect(record: Record)
    | TransportOpened(a: AttemptId, t: TransportId, port: nat)
    | Handshake(a: AttemptId, info: nat)
    | AttemptFails(a: AttemptId)
    | ForwardExits(l: LiveId)
    | RequestFails(l: LiveId)
    | RecoveryTick(r: RecoveryId)
    | RecoveryResumes(r: RecoveryId)
    | Disconnect(node: Node)
    | Dispose

  predicate InFlight(a: Attempt) { a.progress.Opening? || a.progress.Dialing? }

  // ------------------------------------------------------------------ small operations

  function Cleared(e: Entry): Entry {
    e.(published := None, record := None, live := None, pending := None, info := None, transport := None, localPort := None)
  }

  function AsSet<T(==, !new)>(o: Option<T>): (r: set<T>)
    ensures forall x :: x in r <==> o == Some(x)
  {
    if o.Some? then {o.value} else {}
  }

  /** The entry keeps its state and its recovery; connection and transport are closed. */
  function AfterClear(s: State, r: Ref): State
    requires r in s.objects
  {
    var e := s.objects[r];
    s.(objects := s.objects[r := Cleared(e)],
       closedLives := s.closedLives + AsSet(e.live),
       closedTransports := s.closedTransports + AsSet(e.transport))
  }

  function AfterFail(s: State, r: Ref): State
    requires r in s.objects
  {
    var s1 := AfterClear(s, r);
    s1.(objects := s1.objects[r := s1.objects[r].(state := Failed)])
  }

  /** A new recovery takes over the entry. */
  function AfterRecover(s: State, r: Ref, record: Record, cause: Cause): State
    requires r in s.objects
  {
    s.(objects := s.objects[r := s.objects[r].(recovery := Some(s.next))],
       recoveries := s.recoveries[s.next := Recovery(r, record, 0, Sleeping, cause)],
       next := s.next + 1)
  }

  function EntryFor(s: State, node: Node): State {
    if node in s.entries then s
    else s.(entries := s.entries[node := s.next], objects := s.objects[s.next := Blank], home := s.home[s.next := node],
            next := s.next + 1)
  }

  /** What a caller of connect gets: the answer at once, or an attempt to await. */
  datatype Answer = Immediate | Awaits(a: AttemptId)

  function AfterConnect(s: State, record: Record): (State, Answer) { Started(EntryFor(s, record.node), record) }

  /** The answer at hand, the attempt in flight, or a new attempt. */
  function Started(s: State, record: Record): (State, Answer)
    requires record.node in s.entries
  {
    var r := s.entries[record.node];
    if r !in s.objects then (s, Immediate)
    else
      var e := s.objects[r];
      if e.state.Ready? && e.info.Some? then (s, Immediate)
      else if e.pending.Some? then (s, Awaits(e.pending.value))
      else
        (s.(objects := s.objects[r := e.(state := Connecting, pending := Some(s.next))],
            attempts := s.attempts[s.next := Attempt(r, record, Opening)],
            next := s.next + 1),
         Awaits(s.next))
  }

  // ------------------------------------------------------------------------ the steps

  predicate IsAttempt(s: State, a: AttemptId) { a in s.attempts && s.attempts[a].ref in s.objects }

  function AfterOpened(s: State, a: AttemptId, t: TransportId, port: nat): State {
    if !IsAttempt(s, a) || !s.attempts[a].progress.Opening? then s
    else
      var r := s.attempts[a].ref;
      s.(objects := s.objects[r := s.objects[r].(transport := Some(t))],
         attempts := s.attempts[a := s.attempts[a].(progress := Dialing(t, port))],
         forwards := s.forwards[t := a])
  }

  function AfterHandshake(s: State, a: AttemptId, info: nat): State {
    if !IsAttempt(s, a) || !s.attempts[a].progress.Dialing? then s
    else
      var attempt, l := s.attempts[a], s.next;
      var e := s.objects[attempt.ref].(
        live := Some(l), published := Some(l), info := Some(info),
        localPort := if attempt.record.ssh then Some(attempt.progress.port) else None,
        pending := None, record := Some(attempt.record), state := Ready);
      s.(objects := s.objects[attempt.ref := e],
         attempts := s.attempts[a := attempt.(progress := Succeeded(l, attempt.progress.t))],
         lives := s.lives[l := Conn(attempt.ref, attempt.record, a, attempt.progress.t)],
         next := s.next + 1)
  }

  function AfterAttemptFails(s: State, a: AttemptId): State {
    if !IsAttempt(s, a) || !InFlight(s.attempts[a]) then s
    else AfterFail(s.(attempts := s.attempts[a := s.attempts[a].(progress := Fell)]), s.attempts[a].ref)
  }

  predicate IsLive(s: State, l: LiveId) { l in s.lives && s.lives[l].ref in s.objects }

  function AfterForwardExits(s: State, l: LiveId): State {
    if !IsLive(s, l) || s.lives[l].transport in s.lost || s.objects[s.lives[l].ref].transport != Some(s.lives[l].transport) then s
    else
      var c := s.lives[l];
      AfterRecover(AfterFail(s.(lost := s.lost + {c.transport}), c.ref), c.ref, c.record, Exited(c.transport))
  }

  /** A request failed on the wire; a stale channel is not a new drop. */
  function AfterRequestFails(s: State, l: LiveId): State {
    if !IsLive(s, l) || s.objects[s.lives[l].ref].live != Some(l) then s
    else
      var c := s.lives[l];
      AfterRecover(AfterFail(s, c.ref), c.ref, c.record, Dropped(l))
  }

  /** The pause before a recovery's next attempt is over. */
  function AfterTick(s: State, limit: nat, r: RecoveryId): State {
    if r !in s.recoveries || s.recoveries[r].ref !in s.objects || !s.recoveries[r].stage.Sleeping? then s
    else
      var rec := s.recoveries[r];
      if rec.made >= limit || s.objects[rec.ref].recovery != Some(r) then s.(recoveries := s.recoveries[r := rec.(stage := Over)])
      else
        var (s1, answer) := AfterConnect(s, rec.record);
        s1.(recoveries := s1.recoveries[r := rec.(made := rec.made + 1,
                                                  stage := if answer.Immediate? then Over else Awaiting(answer.a))])
  }

  function AfterResume(s: State, r: RecoveryId): State {
    if r !in s.recoveries || !s.recoveries[r].stage.Awaiting? then s
    else
      var rec := s.recoveries[r];
      if rec.stage.a !in s.attempts || InFlight(s.attempts[rec.stage.a]) then s
      else s.(recoveries := s.recoveries[r := rec.(stage := if s.attempts[rec.stage.a].progress.Succeeded? then Over else Sleeping)])
  }

  function AfterDisconnect(s: State, node: Node): State {
    if node !in s.entries || s.entries[node] !in s.objects then s
    else
      var r := s.entries[node];
      var s1 := AfterClear(s, r);
      s1.(objects := s1.objects[r := s1.objects[r].(recovery := None, state := Disconnected)])
  }

  predicate Tabled(s: State, r: Ref) {
    r in s.objects && r in s.home && s.home[r] in s.entries && s.entries[s.home[r]] == r
  }

  function AfterDispose(s: State): State {
    s.(entries := map[],
       objects := map r | r in s.objects :: if Tabled(s, r) then Cleared(s.objects[r]).(recovery := None) else s.objects[r],
       closedLives := s.closedLives + set r | r in s.objects && Tabled(s, r) && s.objects[r].live.Some? :: s.objects[r].live.value,
       closedTransports := s.closedTransports
         + set r | r in s.objects && Tabled(s, r) && s.objects[r].transport.Some? :: s.objects[r].transport.value)
  }

  function Step(s: State, limit: nat, ev: Event): State {
    match ev
    case Connect(record) => AfterConnect(s, record).0
    case TransportOpened(a, t, port) => AfterOpened(s, a, t, port)
    case Handshake(a, info) => AfterHandshake(s, a, info)
    case AttemptFails(a) => AfterAttemptFails(s, a)
    case ForwardExits(l) => AfterForwardExits(s, l)
    case RequestFails(l) => AfterRequestFails(s, l)
    case RecoveryTick(r) => AfterTick(s, limit, r)
    case RecoveryResumes(r) => AfterResume(s, r)
    case Disconnect(node) => AfterDisconnect(s, node)
    case Dispose => AfterDispose(s)
  }

  function Run(s: State, limit: nat, schedule: seq<Event>): State {
    if schedule == [] then s else Step(Run(s, limit, schedule[..|schedule| - 1]), limit, schedule[|schedule| - 1])
  }

  // ------------------------------------------------------------- what every run keeps

  ghost predicate TableOk(s: State) {
    && s.home.Keys == s.objects.Keys
    && forall n :: n in s.entries ==> s.entries[n] in s.objects && s.home[s.entries[n]] == n
  }

  /** Names come from one counter, and what handlers captured exists. */
  ghost predicate BoundsOk(s: State) {
    && (forall r :: r in s.objects ==> r < s.next)
    && (forall a :: a in s.attempts ==> a < s.next && s.attempts[a].ref in s.objects)
    && (forall l :: l in s.lives ==> l < s.next && s.lives[l].ref in s.objects)
    && (forall r :: r in s.recoveries ==> r < s.next && s.recoveries[r].ref in s.objects)
  }

  /** An entry holds only a connection that was made for it. */
  ghost predicate HoldsOk(s: State) {
    forall r :: r in s.objects && s.objects[r].live.Some? ==>
      s.objects[r].live.value in s.lives && s.lives[s.objects[r].live.value].ref == r
  }

  ghost predicate NamesOk(s: State) { TableOk(s) && BoundsOk(s) && HoldsOk(s) }

  /** Ready means holding a channel, a live connection, its info and its record; ssh has a port. */
  ghost predicate ReadyOk(e: Entry) {
    if e.state.Ready? then
      && e.live.Some? && e.published == e.live && e.info.Some? && e.record.Some?
      && (e.localPort.Some? <==> e.record.value.ssh)
    else e.live.None? && e.published.None? && e.info.None? && e.record.None? && e.localPort.None?
  }

  ghost predicate AllReadyOk(s: State) { forall n :: n in s.entries && s.entries[n] in s.objects ==> ReadyOk(s.objects[s.entries[n]]) }

  /** Whether a loss has been answered already: it can never be seen again. */
  ghost predicate Spent(s: State, cause: Cause) {
    match cause
    case Dropped(l) => l in s.lives && s.lives[l].ref in s.objects && s.objects[s.lives[l].ref].live != Some(l)
    case Exited(t) => t in s.lost
  }

  /** Every recovery answers a loss of its own, and tries no more often than the limit. */
  ghost predicate RecoveriesOk(s: State, limit: nat) {
    && (forall r :: r in s.recoveries ==> s.recoveries[r].made <= limit && Spent(s, s.recoveries[r].cause))
    && (forall r, q :: r in s.recoveries && q in s.recoveries && s.recoveries[r].cause == s.recoveries[q].cause ==> r == q)
  }

  ghost predicate Inv(s: State, limit: nat) { NamesOk(s) && AllReadyOk(s) && RecoveriesOk(s, limit) }
}
