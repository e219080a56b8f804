/**
 * The paged text read of the agent's filesystem backend and the loop that drives it.
 *
 * A file is an immutable byte string here: the claims are about a file nobody changes
 * between two pages.
 */
module TextPaging {
  import opened Prelude
  import Utf8

  const MAX_READ_BYTES: nat := 0x8000_0000

  datatype Failure = Binary | InvalidUtf8 | TooLarge

  /** One answered page. */
  datatype Chunk = Chunk(text: seq<Utf8.Scalar>, nextOffset: nat, eof: bool)

  /** What the agent accepts as text: well-formed UTF-8 without a NUL. */
  predicate IsText(bytes: seq<Byte>) {
    0 !in bytes && Utf8.Decode(bytes).Some?
  }

  function TextOf(bytes: seq<Byte>): seq<Utf8.Scalar>
    requires IsText(bytes)
  {
    Utf8.Decode(bytes).value
  }

  function DecodeText(bytes: seq<Byte>): (r: Result<seq<Utf8.Scalar>, Failure>)
    ensures r.Ok? <==> IsText(bytes)
    ensures r.Ok? ==> Utf8.EncodeAll(r.value) == bytes
  {
    if 0 in bytes then Err(Binary)
    else
      match Utf8.Decode(bytes)
      case None => Err(InvalidUtf8)
      case Some(text) => Utf8.EncodeAllDecode(bytes); Ok(text)
  }

  // ---------------------------------------------------------------- the held-back fragment

  /** What a non-continuation byte `back` places before the end says about the tail it starts. */
  function Judge(byte: Byte, back: nat): nat
    requires back >= 1
  {
    if byte < 0x80 then back - 1
    else
      var width := if byte >= 0xF0 then 4 else if byte >= 0xE0 then 3 else 2;
      if width > back then back else 0
  }

  /** The length of the unfinished sequence a window ends with, judged by its last three bytes. */
  function Fragment(bytes: seq<Byte>): (n: nat)
    ensures n <= |bytes| && n <= 3
  {
    var n := |bytes|;
    if n == 0 then 0
    else if !Utf8.Continuation(bytes[n - 1]) then Judge(bytes[n - 1], 1)
    else if n == 1 then 0
    else if !Utf8.Continuation(bytes[n - 2]) then Judge(bytes[n - 2], 2)
    else if n == 2 then 0
    else if !Utf8.Continuation(bytes[n - 3]) then Judge(bytes[n - 3], 3)
    else 0
  }

  method TrailingFragmentLength(bytes: seq<Byte>) returns (n: nat)
    ensures n == Fragment(bytes)
  {
    var limit := if |bytes| < 3 then |bytes| else 3;
    var back := 1;
    while back <= limit
      invariant 1 <= back <= limit + 1
      invariant forall k :: |bytes| - back < k < |bytes| ==> Utf8.Continuation(bytes[k])
    {
      var byte := bytes[|bytes| - back];
      if Utf8.Continuation(byte) {
        back := back + 1;
        continue;
      }
      assert back >= 2 ==> Utf8.Continuation(bytes[|bytes| - 1]);
      assert back >= 3 ==> Utf8.Continuation(bytes[|bytes| - 2]);
      if byte < 0x80 {
        return back - 1;
      }
      var width := if byte >= 0xF0 then 4 else if byte >= 0xE0 then 3 else 2;
      return if width > back then back else 0;
    }
    assert limit >= 1 ==> Utf8.Continuation(bytes[|bytes| - 1]);
    assert limit >= 2 ==> Utf8.Continuation(bytes[|bytes| - 2]);
    assert limit >= 3 ==> Utf8.Continuation(bytes[|bytes| - 3]);
    return 0;
  }

  lemma FragmentOfNothing()
    ensures Fragment([]) == 0
  {
  }

  /** The first k bytes of a sequence of width w: a fragment exactly when they are some but not all. */
  lemma FragmentOfOneSequence(s: seq<Byte>, k: nat)
    requires Utf8.DecodeFirst(s).Some?
    requires k <= Utf8.DecodeFirst(s).value.1
    ensures Fragment(s[..k]) == if k == Utf8.DecodeFirst(s).value.1 then 0 else k
  {
  }

  /** A whole first sequence does not change what a later cut leaves behind. */
  lemma FragmentSkipsFirst(s: seq<Byte>, cut: nat)
    requires Utf8.DecodeFirst(s).Some? && Utf8.DecodeFirst(s).value.1 <= cut <= |s|
    requires Utf8.Decode(s[Utf8.DecodeFirst(s).value.1..]).Some?
    ensures Fragment(s[..cut]) == Fragment(s[Utf8.DecodeFirst(s).value.1..cut])
  {
  }

  /**
   * Cut well-formed text anywhere: the last sequence boundary at or before the cut lies
   * exactly `Fragment` bytes before it, and both sides of that boundary are well formed.
   */
  lemma {:induction false} CutIsAtBoundary(s: seq<Byte>, cut: nat)
    requires Utf8.Decode(s).Some? && cut <= |s|
    ensures var b := cut - Fragment(s[..cut]);
            b >= 0 && Utf8.Decode(s[..b]).Some? && Utf8.Decode(s[b..]).Some?
    decreases |s|
  {
    hide Utf8.DecodeFirst, Utf8.Decode, Fragment;
    Utf8.DecodeSplitsFirst(s);
    if cut == 0 || cut < Utf8.DecodeFirst(s).value.1 {
      assert s[0..] == s && s[..0] == [];
      Utf8.DecodeSplitsFirst([]);
      if cut > 0 { FragmentOfOneSequence(s, cut); } else { FragmentOfNothing(); }
    } else {
      var w := Utf8.DecodeFirst(s).value.1;
      var rest := s[w..];
      CutIsAtBoundary(rest, cut - w);
      FragmentSkipsFirst(s, cut);
      assert rest[..cut - w] == s[w..cut];
      var b := cut - Fragment(s[..cut]);
      assert s[b..] == rest[b - w..];
      Utf8.DecodeConcat(s[..w], rest[..b - w]);
      assert s[..b] == s[..w] + rest[..b - w];
    }
  }

  /** Well-formed text never ends in a fragment. */
  lemma {:induction false} EndIsBoundary(s: seq<Byte>)
    requires Utf8.Decode(s).Some?
    ensures Fragment(s) == 0
    decreases |s|
  {
    hide Utf8.DecodeFirst, Fragment;
    if s == [] {
      FragmentOfNothing();
    } else {
      EndIsBoundary(s[Utf8.DecodeFirst(s).value.1..]);
      FragmentSkipsFirst(s, |s|);
      assert s[..|s|] == s;
    }
  }

  // ---------------------------------------------------------------------------- one page

  /** Fill a buffer from the file; a single read may return any positive count. */
  method ReadWindow(file: seq<Byte>, offset: nat, length: nat) returns (r: Result<seq<Byte>, Failure>)
    ensures length > MAX_READ_BYTES ==> r == Err(TooLarge)
    ensures length <= MAX_READ_BYTES && offset <= |file| ==>
      r == Ok(file[offset..Min(offset + length, |file|)])
    ensures length <= MAX_READ_BYTES && offset > |file| ==> r == Ok([])
  {
    if length > MAX_READ_BYTES {
      return Err(TooLarge);
    }
    if length == 0 {
      assert offset <= |file| ==> file[offset..offset] == [];
      return Ok([]);
    }
    var buffer: seq<Byte> := [];
    while |buffer| < length
      invariant |buffer| <= length
      invariant offset + |buffer| <= |file| ==> buffer == file[offset..offset + |buffer|]
      invariant offset > |file| ==> buffer == []
      invariant offset <= |file| ==> offset + |buffer| <= |file|
    {
      var room := Min(length - |buffer|, |file| - offset - |buffer|);
      if room <= 0 {
        break;
      }
      var read: int :| 1 <= read <= room;
      buffer := buffer + file[offset + |buffer|..offset + |buffer| + read];
    }
    return Ok(buffer);
  }

  /** How many bytes one page asks for. */
  function Wanted(size: nat, offset: nat, length: nat): nat
    requires offset <= size
  {
    Min(Max(length, 4), size - offset)
  }

  /** A page is as long as asked for, but for the end of the file and room for one whole character. */
  lemma PageIsAsLongAsAsked(size: nat, offset: nat, length: nat)
    requires offset <= size
    ensures var wanted := Wanted(size, offset, length);
      && (length >= 4 && offset + length <= size ==> wanted == length)
      && (length < 4 && offset + 4 <= size ==> wanted == 4)
      && (offset + length > size || (length < 4 && offset + 4 > size) ==> offset + wanted == size)
  {
  }

  /** A page of the file: text up to a boundary, or a failure that no other paging avoids. */
  method ReadTextChunk(file: seq<Byte>, offset: nat, length: nat) returns (r: Result<Chunk, Failure>)
    ensures offset >= |file| ==> r == Ok(Chunk([], offset, true))
    ensures offset < |file| && Wanted(|file|, offset, length) > MAX_READ_BYTES ==> r == Err(TooLarge)
    ensures offset < |file| && Wanted(|file|, offset, length) <= MAX_READ_BYTES ==>
      match r
      case Ok(c) =>
        && offset < c.nextOffset <= offset + Wanted(|file|, offset, length) <= |file|
        && c.nextOffset + 3 >= offset + Wanted(|file|, offset, length)
        && IsText(file[offset..c.nextOffset])
        && c.text == TextOf(file[offset..c.nextOffset])
        && (IsText(file[offset..]) <==> IsText(file[c.nextOffset..]))
        && c.eof == (c.nextOffset >= |file|)
      case Err(e) => e != TooLarge && !IsText(file[offset..])
  {
    hide Utf8.DecodeFirst, Utf8.Decode, Fragment;
    var size := |file|;
    if offset >= size {
      return Ok(Chunk([], offset, true));
    }
    var wanted := Wanted(size, offset, length);
    var read := ReadWindow(file, offset, wanted);
    if read.Err? {
      return Err(read.error);
    }
    var window := read.value;
    var fragment := TrailingFragmentLength(window);
    ghost var rest := file[offset..];
    assert window == rest[..wanted];
    if Utf8.Decode(rest).Some? {
      CutIsAtBoundary(rest, wanted);
      EndIsBoundary(rest);
      assert rest[..|rest|] == rest;
    }
    if fragment > 0 && offset + |window| >= size {
      return Err(InvalidUtf8);
    }
    var usable := if fragment > 0 && fragment < |window| then window[..|window| - fragment] else window;
    var nextOffset := offset + |usable|;
    assert usable == rest[..|usable|] && file[offset..nextOffset] == usable;
    assert rest == usable + file[nextOffset..];
    var text := DecodeText(usable);
    match text
    case Err(e) =>
      return Err(e);
    case Ok(t) =>
      Utf8.DecodeConcat(usable, file[nextOffset..]);
      return Ok(Chunk(t, nextOffset, nextOffset >= size));
  }

  // -------------------------------------------------------------------------- the pull loop

  /**
   * Pull a whole file page by page, call number i asking for `lengths(i)` bytes.
   * Whatever the lengths, the pull succeeds exactly on text and yields its decoding.
   */
  method PullText(file: seq<Byte>, lengths: nat -> nat) returns (r: Result<seq<seq<Utf8.Scalar>>, Failure>)
    ensures (forall i: nat :: lengths(i) <= MAX_READ_BYTES) ==> (r.Ok? <==> IsText(file))
    ensures r.Ok? ==> IsText(file) && Flat(r.value) == TextOf(file)
    ensures r.Ok? ==> forall k :: 0 <= k < |r.value| ==> r.value[k] != []
    ensures r.Err? && r.error != TooLarge ==> !IsText(file)
  {
    var chunks: seq<seq<Utf8.Scalar>> := [];
    var offset, calls: nat := 0, 0;
    assert file[0..] == file && file[..0] == [];
    while true
      invariant offset <= |file|
      invariant IsText(file[..offset]) && Flat(chunks) == TextOf(file[..offset])
      invariant IsText(file) <==> IsText(file[offset..])
      invariant forall k :: 0 <= k < |chunks| ==> chunks[k] != []
      invariant calls > 0 ==> offset < |file|
      decreases |file| - offset
    {
      var answer := ReadTextChunk(file, offset, lengths(calls));
      if answer.Err? {
        return Err(answer.error);
      }
      var chunk := answer.value;
      if chunk.text != [] {
        FlatSnoc(chunks, chunk.text);
        chunks := chunks + [chunk.text];
      }
      if offset < |file| {
        ghost var page := file[offset..chunk.nextOffset];
        assert file[..chunk.nextOffset] == file[..offset] + page;
        Utf8.DecodeConcat(file[..offset], page);
      }
      offset := chunk.nextOffset;
      calls := calls + 1;
      if chunk.eof {
        assert file[..offset] == file;
        return Ok(chunks);
      }
    }
  }
}
