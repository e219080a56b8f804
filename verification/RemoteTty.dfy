/**
 * The host's end of a remote terminal: it follows the agent's bounded window by offset and
 * republishes what it read, with an explicit marker wherever the window had slid past it.
 */
module RemoteTty {
  import opened Prelude
  import opened OutputWindow

  /** One thing published on the local stream. */
  datatype Event = Data(bytes: seq<Byte>) | Lost(count: int)

  /** How many bytes of the agent's stream one event stands for. */
  function Extent(e: Event): int {
    match e
    case Data(bytes) => |bytes|
    case Lost(count) => count
  }

  function Published(log: seq<Event>): int {
    if log == [] then 0
    else Published(log[..|log| - 1]) + if log[|log| - 1].Data? then Extent(log[|log| - 1]) else 0
  }

  function LostBytes(log: seq<Event>): int {
    if log == [] then 0
    else LostBytes(log[..|log| - 1]) + if log[|log| - 1].Lost? then Extent(log[|log| - 1]) else 0
  }

  /** The output spelled by the data events alone. */
  function Output(log: seq<Event>): seq<Byte> {
    if log == [] then []
    else Output(log[..|log| - 1]) + if log[|log| - 1].Data? then log[|log| - 1].bytes else []
  }

  /**
   * The log accounts for `stream[..offset]`: laid end to end, each data event is the piece of
   * the stream at its place and each marker skips a positive number of bytes.
   */
  ghost predicate Accounts(log: seq<Event>, stream: seq<Byte>, offset: int) {
    if log == [] then offset == 0
    else
      var e := log[|log| - 1];
      var from := offset - Extent(e);
      && 0 <= from < offset <= |stream|
      && (e.Data? ==> e.bytes == stream[from..offset])
      && Accounts(log[..|log| - 1], stream, from)
  }

  /** Conservation: the offset is what was published plus what was reported lost. */
  lemma {:induction false} AccountsConserve(log: seq<Event>, stream: seq<Byte>, offset: int)
    requires Accounts(log, stream, offset)
    ensures offset == Published(log) + LostBytes(log)
    ensures forall i :: 0 <= i < |log| ==> Extent(log[i]) > 0
    ensures LostBytes(log) >= 0
  {
    if log != [] {
      var n := |log| - 1;
      AccountsConserve(log[..n], stream, offset - Extent(log[n]));
      assert forall i :: 0 <= i < n ==> log[..n][i] == log[i];
    }
  }

  /** The output is the stream read so far exactly when no byte was reported lost. */
  lemma {:induction false} LosslessMeansVerbatim(log: seq<Event>, stream: seq<Byte>, offset: int)
    requires Accounts(log, stream, offset)
    ensures 0 <= offset <= |stream|
    ensures LostBytes(log) == 0 <==> Output(log) == stream[..offset]
    ensures |Output(log)| == Published(log)
  {
    AccountsConserve(log, stream, offset);
    if log != [] {
      var n := |log| - 1;
      var from := offset - Extent(log[n]);
      AccountsConserve(log[..n], stream, from);
      LosslessMeansVerbatim(log[..n], stream, from);
      if LostBytes(log) == 0 {
        assert stream[..offset] == stream[..from] + stream[from..offset];
      }
    }
  }

  lemma {:induction false} AccountsSurvivesGrowth(log: seq<Event>, stream: seq<Byte>, more: seq<Byte>, offset: int)
    requires Accounts(log, stream, offset)
    ensures Accounts(log, stream + more, offset)
  {
    if log != [] {
      var n := |log| - 1;
      var from := offset - Extent(log[n]);
      AccountsSurvivesGrowth(log[..n], stream, more, from);
      assert (stream + more)[from..offset] == stream[from..offset];
    }
  }

  lemma AccountsData(log: seq<Event>, stream: seq<Byte>, from: int, to: int)
    requires Accounts(log, stream, from) && 0 <= from < to <= |stream|
    ensures Accounts(log + [Data(stream[from..to])], stream, to)
    ensures Accounts(log + [Lost(to - from)], stream, to)
    ensures LostBytes(log + [Data(stream[from..to])]) == LostBytes(log)
    ensures LostBytes(log + [Lost(to - from)]) == LostBytes(log) + to - from
  {
    assert (log + [Data(stream[from..to])])[..|log|] == log;
    assert (log + [Lost(to - from)])[..|log|] == log;
  }

  /** A follower loses bytes exactly when it falls more than the window's size behind. */
  lemma LossExactlyWhenBehind(stream: seq<Byte>, cap: nat, from: nat)
    requires from <= |stream|
    ensures ReadOf(stream, cap, from).lossy <==> |stream| - from > cap
  {
  }

  /** What one pull adds to the log: the marker of a gap, then the bytes. */
  function Events(read: Read, offset: nat): seq<Event> {
    (if read.lossy then [Lost(read.nextOffset - |read.bytes| - offset)] else [])
    + if read.bytes != [] then [Data(read.bytes)] else []
  }

  lemma NextOffsetIsEnd(stream: seq<Byte>, cap: nat, from: nat)
    ensures ReadOf(stream, cap, from).nextOffset == |stream|
  {
  }

  /**
   * A pull keeps the account balanced up to the end of the stream, and reports lost exactly
   * the bytes that lie further back than the window reaches.
   */
  lemma PullAccounts(log: seq<Event>, stream: seq<Byte>, cap: nat, offset: nat)
    requires Accounts(log, stream, offset)
    ensures var grown := log + Events(ReadOf(stream, cap, offset), offset);
            && Accounts(grown, stream, |stream|)
            && LostBytes(grown) == LostBytes(log) + Max(0, |stream| - cap - offset)
  {
    hide ReadOf, Published, Output;
    var read := ReadOf(stream, cap, offset);
    var mid := |stream| - |read.bytes|;
    LosslessMeansVerbatim(log, stream, offset);
    ReadShape(stream, cap, offset);
    var marked := log + if read.lossy then [Lost(mid - offset)] else [];
    if read.lossy {
      AccountsData(log, stream, offset, mid);
    } else {
      assert marked == log;
    }
    if read.bytes != [] {
      AccountsData(marked, stream, mid, |stream|);
      assert stream[mid..|stream|] == stream[mid..];
      assert log + Events(read, offset) == marked + [Data(read.bytes)];
    } else {
      assert log + Events(read, offset) == marked;
    }
  }

  lemma ReadShape(stream: seq<Byte>, cap: nat, offset: nat)
    requires offset <= |stream|
    ensures var read := ReadOf(stream, cap, offset);
            var mid := |stream| - |read.bytes|;
            && mid == Max(offset, |stream| - cap)
            && read.bytes == stream[mid..]
            && read.nextOffset == |stream|
            && (read.lossy <==> mid > offset)
  {
  }

  class Follower {
    var offset: nat
    var finished: bool
    var log: seq<Event>

    constructor ()
      ensures offset == 0 && !finished && log == []
    {
      offset, finished, log := 0, false, [];
    }

    /** Write to the local stream; a settled handle publishes nothing more. */
    method Publish(e: Event)
      modifies this`log
      ensures log == if finished then old(log) else old(log) + [e]
    {
      if finished {
        return;
      }
      log := log + [e];
    }

    /** Read what the agent has written since the last offset, marking a gap first. */
    method Pull(daemon: StreamBuffer)
      requires daemon.Valid()
      modifies this`log, this`offset
      ensures offset == |daemon.stream|
      ensures log == old(log) + if finished then [] else Events(ReadOf(daemon.stream, daemon.maxBytes, old(offset)), old(offset))
    {
      hide Tail, ReadOf;
      var read := daemon.ReadFrom(offset);
      NextOffsetIsEnd(daemon.stream, daemon.maxBytes, offset);
      var bytes := read.bytes;
      if read.lossy {
        var lost := read.nextOffset - |bytes| - offset;
        Publish(Lost(lost));
      }
      offset := read.nextOffset;
      if |bytes| > 0 {
        Publish(Data(bytes));
      }
    }

    /** One pass of the follow loop, with whatever arrived before its read. */
    method Step(daemon: StreamBuffer, chunks: seq<seq<Byte>>)
      requires daemon.Valid() && !finished && Accounts(log, daemon.stream, offset)
      modifies this`log, this`offset, daemon
      ensures daemon.Valid() && daemon.stream == old(daemon.stream) + Flat(chunks)
      ensures Accounts(log, daemon.stream, offset) && offset == |daemon.stream|
    {
      hide Flat, ReadOf, Accounts, Events;
      ghost var was := daemon.stream;
      PushAll(daemon, chunks);
      AccountsSurvivesGrowth(log, was, Flat(chunks), offset);
      PullAccounts(log, daemon.stream, daemon.maxBytes, offset);
      Pull(daemon);
    }

    /**
     * Follow a terminal: before each pull any chunks may arrive. The loop ends at the first
     * pull that carries exit facts (`exitAt`), or when the transport drops after the last one.
     */
    method Follow(daemon: StreamBuffer, arrivals: seq<seq<seq<Byte>>>, exitAt: nat)
      requires daemon.Valid() && offset == 0 && !finished && log == []
      modifies this, daemon
      ensures finished && daemon.Valid()
      ensures daemon.stream == old(daemon.stream) + Flat(Flat(arrivals[..Min(|arrivals|, exitAt + 1)]))
      ensures Accounts(log, daemon.stream, offset)
      ensures arrivals != [] ==> offset == |daemon.stream|
    {
      hide Flat, Accounts;
      NoChunks(daemon.stream);
      var pulls := 0;
      while true
        invariant 0 <= pulls <= |arrivals| && pulls <= exitAt && !finished && daemon.Valid()
        invariant daemon.stream == old(daemon.stream) + Flat(Flat(arrivals[..pulls]))
        invariant Accounts(log, daemon.stream, offset)
        invariant pulls > 0 ==> offset == |daemon.stream|
        decreases |arrivals| - pulls
      {
        if pulls == |arrivals| {
          finished := true;
          return;
        }
        Step(daemon, arrivals[pulls]);
        FlatOneMore(arrivals, pulls);
        if pulls == exitAt {
          finished := true;
          return;
        }
        pulls := pulls + 1;
      }
    }
  }

  lemma FlatOneMore(arrivals: seq<seq<seq<Byte>>>, k: nat)
    requires k < |arrivals|
    ensures Flat(Flat(arrivals[..k + 1])) == Flat(Flat(arrivals[..k])) + Flat(arrivals[k])
  {
    assert arrivals[..k + 1] == arrivals[..k] + [arrivals[k]];
    FlatSnoc(arrivals[..k], arrivals[k]);
    FlatAppend(Flat(arrivals[..k]), arrivals[k]);
  }

  lemma NoChunks(stream: seq<Byte>)
    ensures Flat(Flat<seq<Byte>>([])) == [] && Accounts([], stream, 0)
  {
  }
}
