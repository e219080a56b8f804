/**
 * The bounded window the agent keeps of one output stream, and the host-side mirror that
 * copies it. Offsets are whole-stream byte coordinates on both sides.
 */
module OutputWindow {
  import opened Prelude

  /** What a window of `cap` bytes retains of a stream: its last bytes. */
  function Tail(stream: seq<Byte>, cap: nat): (tail: seq<Byte>)
    ensures |tail| == Min(|stream|, cap)
    ensures tail == stream[|stream| - |tail|..]
  {
    stream[Max(0, |stream| - cap)..]
  }

  /** The answer to a read: bytes, the resume offset, and whether the offset had slid away. */
  datatype Read = Read(bytes: seq<Byte>, nextOffset: nat, lossy: bool)

  /** What a window over `stream` answers to a read from `from`. */
  function ReadOf(stream: seq<Byte>, cap: nat, from: nat): Read {
    var dropped := |stream| - |Tail(stream, cap)|;
    if from < dropped then Read(Tail(stream, cap), |stream|, true)
    else Read(stream[Min(from, |stream|)..], |stream|, false)
  }

  /** One trimming step: drop the head piece, or only its first bytes. */
  function TrimHead(pieces: seq<seq<Byte>>, excess: nat): (r: seq<seq<Byte>>)
    requires pieces != []
  {
    if |pieces[0]| <= excess then pieces[1..] else [pieces[0][excess..]] + pieces[1..]
  }

  /** A trimming step of a list that spells `whole[cut..]` moves the cut by what it drops. */
  lemma TrimHeadMovesCut(pieces: seq<seq<Byte>>, excess: nat, whole: seq<Byte>, cut: nat)
    requires pieces != [] && cut <= |whole| && Flat(pieces) == whole[cut..]
    ensures var n := Min(|pieces[0]|, excess);
            cut + n <= |whole| && Flat(TrimHead(pieces, excess)) == whole[cut + n..]
  {
    var rest := Flat(pieces[1..]);
    assert whole[cut..] == pieces[0] + rest;
    if |pieces[0]| <= excess {
      assert whole[cut + |pieces[0]|..] == whole[cut..][|pieces[0]|..];
    } else {
      assert TrimHead(pieces, excess)[1..] == pieces[1..];
      assert whole[cut + excess..] == whole[cut..][excess..];
      assert (pieces[0] + rest)[excess..] == pieces[0][excess..] + rest;
    }
  }

  /** Whatever spells `whole` from a cut that leaves exactly what fits the cap is its tail. */
  lemma TailIsCut(whole: seq<Byte>, retained: nat, cap: nat)
    requires retained == Min(|whole|, cap)
    ensures whole[|whole| - retained..] == Tail(whole, cap)
  {
  }

  lemma TailOfTail(stream: seq<Byte>, chunk: seq<Byte>, cap: nat)
    ensures Tail(Tail(stream, cap) + chunk, cap) == Tail(stream + chunk, cap)
  {
  }

  class StreamBuffer {
    var chunks: seq<seq<Byte>>
    var retained: nat
    var dropped: nat
    var total: nat
    const maxBytes: nat
    /** Every byte ever pushed. */
    ghost var stream: seq<Byte>

    ghost predicate Valid()
      reads this
    {
      && total == |stream|
      && Flat(chunks) == Tail(stream, maxBytes)
      && retained == |Flat(chunks)|
      && dropped + retained == total
    }

    constructor (maxBytes: nat)
      ensures Valid() && stream == [] && this.maxBytes == maxBytes
    {
      chunks, retained, dropped, total := [], 0, 0, 0;
      this.maxBytes := maxBytes;
      stream := [];
    }

    /** Append bytes, keeping only the last `maxBytes`; an empty chunk is legal. */
    method Push(chunk: seq<Byte>)
      requires Valid()
      modifies this
      ensures Valid() && stream == old(stream) + chunk
    {
      hide Flat, Tail;
      ghost var grown := Tail(stream, maxBytes) + chunk;
      TailOfTail(stream, chunk, maxBytes);
      stream := stream + chunk;
      total := total + |chunk|;
      FlatSnoc(chunks, chunk);
      chunks := chunks + [chunk];
      retained := retained + |chunk|;
      while retained > maxBytes
        invariant retained <= |grown| && (retained >= maxBytes || retained == |grown|)
        invariant Flat(chunks) == grown[|grown| - retained..]
        invariant dropped + retained == total == |stream| && stream == old(stream) + chunk
        decreases |chunks|, retained
      {
        if chunks == [] {
          FlatOfNothing();
          break;
        }
        var headLen := |chunks[0]|;
        var excess := retained - maxBytes;
        TrimHeadMovesCut(chunks, excess, grown, |grown| - retained);
        if headLen <= excess {
          chunks := chunks[1..];
          retained := retained - headLen;
          dropped := dropped + headLen;
        } else {
          chunks := [chunks[0][excess..]] + chunks[1..];
          retained := retained - excess;
          dropped := dropped + excess;
        }
      }
      TailIsCut(grown, retained, maxBytes);
    }

    /** Read the window from a whole-stream offset; nothing is consumed. */
    method ReadFrom(from: nat) returns (r: Read)
      requires Valid()
      ensures r == ReadOf(stream, maxBytes, from)
    {
      var lossy := from < dropped;
      var skip := if lossy then 0 else Min(from - dropped, retained);
      var bytes: seq<Byte> := [];
      for i := 0 to |chunks|
        invariant bytes == Flat(chunks[..i])
      {
        assert chunks[..i + 1] == chunks[..i] + [chunks[i]];
        FlatSnoc(chunks[..i], chunks[i]);
        bytes := bytes + chunks[i];
      }
      assert chunks[..|chunks|] == chunks;
      return Read(bytes[skip..], total, lossy);
    }
  }

  /** What a mirror reports back to its own callers. */
  datatype MirrorRead = MirrorRead(bytes: seq<Byte>, nextOffset: nat, lossy: bool)

  class CollectedMirror {
    var chunks: seq<seq<Byte>>
    var start: nat
    var end: nat
    var dropped: bool
    const maxBytes: nat

    ghost predicate Valid()
      reads this
    {
      && start + |Flat(chunks)| == end
      && (start > 0 ==> dropped)
    }

    /** The mirror is exactly the window the agent had when the stream ended at `end`. */
    ghost predicate Mirrors(stream: seq<Byte>)
      reads this
    {
      && Valid()
      && end <= |stream|
      && Flat(chunks) == Tail(stream[..end], maxBytes)
      && (dropped <==> start > 0)
    }

    constructor (maxBytes: nat)
      ensures Valid() && this.maxBytes == maxBytes && end == 0 && !dropped
    {
      chunks, start, end, dropped := [], 0, 0, false;
      this.maxBytes := maxBytes;
    }

    /** Replace the content with a window's tail: what is between the two is lost. */
    method Reset(bytes: seq<Byte>, nextOffset: nat)
      requires |bytes| <= nextOffset
      modifies this
      ensures Valid() && Flat(chunks) == bytes && end == nextOffset && dropped
    {
      chunks := if |bytes| > 0 then [bytes] else [];
      assert [bytes][1..] == [];
      start := nextOffset - |bytes|;
      end := nextOffset;
      dropped := true;
    }

    /** Append bytes and trim the head to the cap. */
    method Push(bytes: seq<Byte>)
      requires Valid()
      modifies this
      ensures Valid() && end == old(end) + |bytes|
      ensures bytes == [] ==> unchanged(this)
      ensures bytes != [] ==> Flat(chunks) == Tail(old(Flat(chunks)) + bytes, maxBytes)
      ensures dropped == (old(dropped) || start > old(start))
    {
      hide Flat, Tail;
      if |bytes| == 0 {
        return;
      }
      FlatSnoc(chunks, bytes);
      ghost var grown := Flat(chunks) + bytes;
      chunks := chunks + [bytes];
      end := end + |bytes|;
      var retained := end - start;
      while retained > maxBytes && |chunks| > 0
        invariant start <= end && retained == end - start
        invariant end == old(end) + |bytes| && start == old(start) + |grown| - retained
        invariant retained <= |grown| && (retained >= maxBytes || retained == |grown|)
        invariant Flat(chunks) == grown[|grown| - retained..]
        invariant start > old(start) ==> dropped
        invariant old(dropped) ==> dropped
        invariant dropped ==> old(dropped) || |grown| > maxBytes
        decreases |chunks|, retained
      {
        var headLen := |chunks[0]|;
        var overflow := retained - maxBytes;
        TrimHeadMovesCut(chunks, overflow, grown, |grown| - retained);
        if headLen <= overflow {
          chunks := chunks[1..];
          start := start + headLen;
        } else {
          chunks := [chunks[0][overflow..]] + chunks[1..];
          start := start + overflow;
        }
        dropped := true;
        retained := end - start;
      }
      if chunks == [] { FlatOfNothing(); }
      TailIsCut(grown, retained, maxBytes);
    }

    /** Read everything the mirror holds from an offset on. */
    method ReadFrom(from: nat) returns (r: MirrorRead)
      requires Valid()
      ensures r.nextOffset == end
      ensures r.bytes == if from < start then Flat(chunks) else if from >= end then [] else Flat(chunks)[from - start..]
      ensures r.lossy <==> from < start || dropped
    {
      var all := Flat(chunks);
      if from < start {
        return MirrorRead(all, end, true);
      }
      if from >= end {
        return MirrorRead([], end, dropped);
      }
      return MirrorRead(all[from - start..], end, dropped);
    }
  }

  /** The mirror holds the whole window of `stream`. */
  ghost predicate Caught(mirror: CollectedMirror, stream: seq<Byte>)
    reads mirror
  {
    mirror.Mirrors(stream) && mirror.end == |stream|
  }

  lemma CaughtContent(mirror: CollectedMirror, stream: seq<Byte>)
    requires Caught(mirror, stream)
    ensures Flat(mirror.chunks) == Tail(stream, mirror.maxBytes)
    ensures mirror.start == |stream| - |Tail(stream, mirror.maxBytes)|
    ensures mirror.Valid() && (mirror.dropped <==> mirror.start > 0)
  {
  }

  /** Append what an intact offset still had to fetch. */
  method Extend(mirror: CollectedMirror, bytes: seq<Byte>, ghost stream: seq<Byte>)
    requires mirror.Mirrors(stream) && bytes == stream[mirror.end..] && bytes != []
    modifies mirror
    ensures Caught(mirror, stream)
  {
    hide Tail, Flat;
    ghost var before := stream[..mirror.end];
    assert before + bytes == stream;
    TailOfTail(before, bytes, mirror.maxBytes);
    mirror.Push(bytes);
    assert mirror.end == |stream| && stream[..mirror.end] == stream;
  }

  /** Adopt the tail an already lost offset is answered with. */
  method Adopt(mirror: CollectedMirror, read: Read, ghost stream: seq<Byte>)
    requires read.bytes == Tail(stream, mirror.maxBytes) && read.nextOffset == |stream|
    requires |read.bytes| < |stream|
    modifies mirror
    ensures Caught(mirror, stream)
  {
    hide Tail, Flat;
    mirror.Reset(read.bytes, read.nextOffset);
    assert stream[..|stream|] == stream;
  }

  /** Fetch what the mirror is missing until the agent's window stops advancing. */
  method Drain(daemon: StreamBuffer, mirror: CollectedMirror)
    requires daemon.Valid() && mirror.Mirrors(daemon.stream) && mirror.maxBytes == daemon.maxBytes
    modifies mirror
    ensures Caught(mirror, daemon.stream)
  {
    hide Tail, Flat;
    var more := true;
    while more
      invariant mirror.Mirrors(daemon.stream) && (!more ==> mirror.end == |daemon.stream|)
      decreases more
    {
      var read := daemon.ReadFrom(mirror.end);
      if read.lossy {
        Adopt(mirror, read, daemon.stream);
      } else {
        if |read.bytes| == 0 {
          return;
        }
        Extend(mirror, read.bytes, daemon.stream);
      }
      more := read.nextOffset > mirror.end;
    }
  }

  /** Deliver the chunks one reader produced, in order. */
  method PushAll(daemon: StreamBuffer, chunks: seq<seq<Byte>>)
    requires daemon.Valid()
    modifies daemon
    ensures daemon.Valid() && daemon.stream == old(daemon.stream) + Flat(chunks)
  {
    hide Tail, Flat;
    FlatOfNothing();
    for j := 0 to |chunks|
      invariant daemon.Valid() && daemon.stream == old(daemon.stream) + Flat(chunks[..j])
    {
      daemon.Push(chunks[j]);
      assert chunks[..j + 1] == chunks[..j] + [chunks[j]];
      FlatSnoc(chunks[..j], chunks[j]);
    }
    assert chunks[..|chunks|] == chunks;
  }

  /** A drained mirror answers like the window itself, whatever the offset. */
  lemma DrainedAnswer(stream: seq<Byte>, cap: nat, from: nat)
    ensures var kept := Tail(stream, cap);
            var start := |stream| - |kept|;
            ReadOf(stream, cap, from).bytes ==
              if from < start then kept else if from >= |stream| then [] else kept[from - start..]
  {
  }

  /** As documented: the flag says whether the offset that was asked for is lost. */
  predicate LossyAsDocumented(r: MirrorRead, stream: seq<Byte>, cap: nat, from: nat) {
    r.lossy <==> from < |stream| - cap
  }

  /**
   * A whole life of one collected stream: rounds of pushes, each followed by a drain, then a
   * read from any offset. The host answers with the bytes the agent itself would answer with;
   * it marks them lossy exactly when anything of the stream has ever been dropped, which is what
   * is documented exactly when nothing was dropped or the offset itself is lost.
   */
  method Session(cap: nat, rounds: seq<seq<seq<Byte>>>, from: nat) returns (r: MirrorRead)
    ensures var stream := Flat(Flat(rounds));
            && r.bytes == ReadOf(stream, cap, from).bytes
            && r.nextOffset == |stream|
            && (r.lossy <==> |stream| > cap)
            && (LossyAsDocumented(r, stream, cap, from) <==> |stream| <= cap || from < |stream| - cap)
  {
    hide Tail, Flat, ReadOf, CollectedMirror.Mirrors;
    var daemon := new StreamBuffer(cap);
    var mirror := new CollectedMirror(cap);
    NothingKept(cap, mirror);
    for i := 0 to |rounds|
      invariant daemon.Valid() && daemon.stream == Flat(Flat(rounds[..i]))
      invariant Caught(mirror, daemon.stream)
      invariant mirror.maxBytes == daemon.maxBytes == cap && fresh(daemon) && fresh(mirror)
    {
      ghost var was := daemon.stream;
      PushAll(daemon, rounds[i]);
      StillMirrors(mirror, was, Flat(rounds[i]));
      FlatSnoc(rounds[..i], rounds[i]);
      FlatAppend(Flat(rounds[..i]), rounds[i]);
      assert rounds[..i + 1] == rounds[..i] + [rounds[i]];
      Drain(daemon, mirror);
    }
    assert rounds[..|rounds|] == rounds;
    DrainedAnswer(daemon.stream, cap, from);
    CaughtContent(mirror, daemon.stream);
    r := mirror.ReadFrom(from);
    KeptLess(daemon.stream, cap);
  }

  /** A retained offset, answered with everything from there on and yet marked lossy. */
  method LossyAtRetainedOffset() returns (r: MirrorRead)
    ensures r == MirrorRead([2], 2, true) && !LossyAsDocumented(r, [1, 2], 1, 1)
  {
    var chunks: seq<seq<seq<Byte>>> := [[[1, 2]]];
    FlatSnoc([], chunks[0]);
    FlatSnoc([], chunks[0][0]);
    FlatOfNothing();
    assert [] + chunks[0] == chunks[0] && [] + [chunks[0]] == chunks && [] + chunks[0][0] == chunks[0][0];
    assert Flat(Flat(chunks)) == [1, 2];
    assert ReadOf([1, 2], 1, 1).bytes == [2];
    r := Session(1, chunks, 1);
  }

  lemma KeptLess(stream: seq<Byte>, cap: nat)
    ensures |Tail(stream, cap)| < |stream| <==> |stream| > cap
  {
  }

  /** Bytes arriving later do not change what the mirror already copied. */
  lemma StillMirrors(mirror: CollectedMirror, stream: seq<Byte>, more: seq<Byte>)
    requires mirror.Mirrors(stream)
    ensures mirror.Mirrors(stream + more)
  {
  }

  lemma NothingKept(cap: nat, mirror: CollectedMirror)
    requires mirror.Valid() && mirror.end == 0 && !mirror.dropped
    ensures Caught(mirror, []) && Flat(Flat<seq<Byte>>([])) == []
  {
  }

  lemma FlatOfNothing()
    ensures Flat<Byte>([]) == []
  {
  }
}
