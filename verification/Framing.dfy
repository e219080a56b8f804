/**
 * The two wire framings: the length-prefixed frames of the program host's control channel and
 * the header-framed JSON-RPC messages of the agent. Bodies are opaque bytes.
 */
module Framing {
  import opened Prelude
  import Decimal

  // ------------------------------------------------------------- length-prefixed frames

  const U32_MAX: nat := 0xFFFF_FFFF

  datatype FrameError = EmptyOrTooLong(length: nat)

  /** The low 32 bits of a length, most significant byte first. */
  function BigEndian(n: nat): (bytes: seq<Byte>)
    ensures |bytes| == 4
  {
    [n / 256 / 256 / 256 % 256, n / 256 / 256 % 256, n / 256 % 256, n % 256]
  }

  function FromBigEndian(b: seq<Byte>): nat
    requires |b| == 4
  {
    ((b[0] as int * 256 + b[1]) * 256 + b[2]) * 256 + b[3]
  }

  lemma BigEndianRoundTrip(n: nat)
    requires n <= U32_MAX
    ensures FromBigEndian(BigEndian(n)) == n
  {
  }

  lemma FromBigEndianRoundTrip(b: seq<Byte>)
    requires |b| == 4
    ensures FromBigEndian(b) <= U32_MAX && BigEndian(FromBigEndian(b)) == b
  {
    var h := b[0] as int * 256 + b[1];
    var m := h * 256 + b[2];
    var n := m * 256 + b[3];
    assert n / 256 == m && n % 256 == b[3];
    assert m / 256 == h && m % 256 == b[2];
    assert h / 256 == b[0] && h % 256 == b[1];
  }

  function Frame(payload: seq<Byte>): seq<Byte> {
    BigEndian(|payload|) + payload
  }

  predicate Fits(payload: seq<Byte>, maxFrame: nat) { 1 <= |payload| <= maxFrame }

  /** What a reader makes of the bytes up to the peer's close, and what it leaves unread. */
  function ParseFrame(stream: seq<Byte>, maxFrame: nat): (Result<Option<seq<Byte>>, FrameError>, seq<Byte>) {
    if |stream| < 4 then (Ok(None), [])
    else
      var length := FromBigEndian(stream[..4]);
      if length == 0 || length > maxFrame then (Err(EmptyOrTooLong(length)), stream[4..])
      else if |stream| < 4 + length then (Ok(None), [])
      else (Ok(Some(stream[4..4 + length])), stream[4 + length..])
  }

  class Channel {
    const maxFrame: nat
    /** Bytes the peer has sent before closing, not read yet. */
    var incoming: seq<Byte>
    var outgoing: seq<Byte>

    /** The limit fits the length prefix, as is checked when the channel is inherited. */
    ghost predicate Valid() { maxFrame <= U32_MAX }

    constructor Inherit(maxFrame: nat, incoming: seq<Byte>)
      requires maxFrame <= U32_MAX
      ensures Valid() && this.maxFrame == maxFrame && this.incoming == incoming && outgoing == []
    {
      this.maxFrame := maxFrame;
      this.incoming, outgoing := incoming, [];
    }

    method WriteFrame(payload: seq<Byte>) returns (r: Result<(), FrameError>)
      requires Valid()
      modifies this`outgoing
      ensures r.Ok? <==> Fits(payload, maxFrame)
      ensures r.Ok? ==> outgoing == old(outgoing) + Frame(payload)
      ensures r.Ok? ==> ParseFrame(Frame(payload), maxFrame) == (Ok(Some(payload)), [])
      ensures r.Err? ==> outgoing == old(outgoing) && r.error == EmptyOrTooLong(|payload|)
    {
      if |payload| == 0 || |payload| > maxFrame {
        return Err(EmptyOrTooLong(|payload|));
      }
      assert Frame(payload) + [] == Frame(payload);
      FrameRoundTrip(Frame(payload), payload, [], maxFrame);
      outgoing := outgoing + BigEndian(|payload|);
      outgoing := outgoing + payload;
      return Ok(());
    }

    /** Take exactly `count` bytes, or all that is left when the peer closed short of them. */
    method ReadExact(count: nat) returns (bytes: Option<seq<Byte>>)
      modifies this`incoming
      ensures |old(incoming)| >= count ==> bytes == Some(old(incoming)[..count]) && incoming == old(incoming)[count..]
      ensures |old(incoming)| < count ==> bytes == None && incoming == []
    {
      if |incoming| < count {
        incoming := [];
        return None;
      }
      bytes := Some(incoming[..count]);
      incoming := incoming[count..];
    }

    method ReadFrame() returns (r: Result<Option<seq<Byte>>, FrameError>)
      modifies this`incoming
      ensures (r, incoming) == ParseFrame(old(incoming), maxFrame)
    {
      var header := ReadExact(4);
      if header.None? {
        return Ok(None);
      }
      var length := FromBigEndian(header.value);
      if length == 0 || length > maxFrame {
        return Err(EmptyOrTooLong(length));
      }
      ghost var sent := old(incoming);
      assert |sent| >= 4 + length ==> sent[4..][..length] == sent[4..4 + length] && sent[4..][length..] == sent[4 + length..];
      var payload := ReadExact(length);
      return Ok(payload);
    }
  }

  /** A frame is read as `payload` exactly when it is the printed frame of that payload. */
  lemma FrameRoundTrip(stream: seq<Byte>, payload: seq<Byte>, rest: seq<Byte>, maxFrame: nat)
    requires maxFrame <= U32_MAX
    ensures ParseFrame(stream, maxFrame) == (Ok(Some(payload)), rest)
       <==> Fits(payload, maxFrame) && stream == Frame(payload) + rest
  {
    if ParseFrame(stream, maxFrame) == (Ok(Some(payload)), rest) {
      FromBigEndianRoundTrip(stream[..4]);
      assert stream == stream[..4] + payload + rest;
    }
    if Fits(payload, maxFrame) && stream == Frame(payload) + rest {
      BigEndianRoundTrip(|payload|);
      assert stream[..4] == BigEndian(|payload|);
      assert stream[4..4 + |payload|] == payload && stream[4 + |payload|..] == rest;
    }
  }

  /** A peer that closes inside a frame ends the channel; it is never read as a frame. */
  lemma CutFrameEndsChannel(payload: seq<Byte>, cut: nat, maxFrame: nat)
    requires maxFrame <= U32_MAX && Fits(payload, maxFrame) && cut < |Frame(payload)|
    ensures ParseFrame(Frame(payload)[..cut], maxFrame) == (Ok(None), [])
  {
  }

  /** A length that no frame has is an error that names it; the reader is left after the prefix. */
  lemma BadLengthIsError(length: nat, rest: seq<Byte>, maxFrame: nat)
    requires length <= U32_MAX && (length == 0 || length > maxFrame)
    ensures ParseFrame(BigEndian(length) + rest, maxFrame) == (Err(EmptyOrTooLong(length)), rest)
  {
    BigEndianRoundTrip(length);
    var stream := BigEndian(length) + rest;
    assert stream[..4] == BigEndian(length) && stream[4..] == rest;
  }

  function FrameAll(payloads: seq<seq<Byte>>): seq<Byte> {
    if payloads == [] then [] else Frame(payloads[0]) + FrameAll(payloads[1..])
  }

  /** Read frames until `count` of them arrived; nothing when one of them is not a frame. */
  function ParseFrames(stream: seq<Byte>, maxFrame: nat, count: nat): Option<(seq<seq<Byte>>, seq<Byte>)>
    decreases count
  {
    if count == 0 then Some(([], stream))
    else
      match ParseFrame(stream, maxFrame)
      case (Ok(Some(payload)), rest) =>
        (match ParseFrames(rest, maxFrame, count - 1)
         case None => None
         case Some((more, left)) => Some(([payload] + more, left)))
      case _ => None
  }

  /** Any number of written frames is read back in order, whatever follows them. */
  lemma {:induction false} FramesRoundTrip(payloads: seq<seq<Byte>>, rest: seq<Byte>, maxFrame: nat)
    requires maxFrame <= U32_MAX && forall p :: p in payloads ==> Fits(p, maxFrame)
    ensures ParseFrames(FrameAll(payloads) + rest, maxFrame, |payloads|) == Some((payloads, rest))
    decreases |payloads|
  {
    hide ParseFrame, Frame;
    if payloads == [] {
      assert [] + rest == rest;
    } else {
      var tail := FrameAll(payloads[1..]) + rest;
      assert FrameAll(payloads) + rest == Frame(payloads[0]) + tail;
      FrameRoundTrip(Frame(payloads[0]) + tail, payloads[0], tail, maxFrame);
      FramesRoundTrip(payloads[1..], rest, maxFrame);
      assert payloads == [payloads[0]] + payloads[1..];
    }
  }

  // -------------------------------------------------------------- header-framed messages

  const USIZE_MAX: nat := 0xFFFF_FFFF_FFFF_FFFF
  const CR: Byte := 13
  const LF: Byte := 10
  const COLON: Byte := 58
  const SPACE: Byte := 32
  const PLUS: Byte := 43

  /** "content-length" in ASCII. */
  const CONTENT_LENGTH: seq<Byte> := [99, 111, 110, 116, 101, 110, 116, 45, 108, 101, 110, 103, 116, 104]
  /** "Content-Length" as the agent spells it. */
  const CONTENT_LENGTH_SENT: seq<Byte> := [67, 111, 110, 116, 101, 110, 116, 45, 76, 101, 110, 103, 116, 104]

  function Encode(body: seq<Byte>): seq<Byte> {
    CONTENT_LENGTH_SENT + [COLON, SPACE] + Decimal.Print(|body|) + [CR, LF, CR, LF] + body
  }

  datatype Message = EndOfStream | Body(bytes: seq<Byte>) | NoLength | CutShort

  /** The length of the line at the front, its newline included; all that is left without one. */
  function LineLength(stream: seq<Byte>): (n: nat)
    ensures n <= |stream| && (stream != [] ==> n > 0)
  {
    if stream == [] then 0
    else if stream[0] == LF then 1
    else 1 + LineLength(stream[1..])
  }

  function TrimEnd(line: seq<Byte>): seq<Byte> {
    if line != [] && (line[|line| - 1] == CR || line[|line| - 1] == LF) then TrimEnd(line[..|line| - 1]) else line
  }

  predicate IsSpace(b: Byte) { b == SPACE || 9 <= b <= 13 }

  function TrimLeft(text: seq<Byte>): seq<Byte> {
    if text != [] && IsSpace(text[0]) then TrimLeft(text[1..]) else text
  }

  function TrimRight(text: seq<Byte>): seq<Byte> {
    if text != [] && IsSpace(text[|text| - 1]) then TrimRight(text[..|text| - 1]) else text
  }

  function Lower(b: Byte): Byte { if 65 <= b <= 90 then b + 32 else b }

  predicate SameIgnoringCase(a: seq<Byte>, b: seq<Byte>) {
    |a| == |b| && forall i :: 0 <= i < |a| ==> Lower(a[i]) == Lower(b[i])
  }

  /** Where the first colon of a header is, or its length when there is none. */
  function ColonAt(header: seq<Byte>): (n: nat)
    ensures n <= |header| && (n < |header| ==> header[n] == COLON)
  {
    if header == [] || header[0] == COLON then 0 else 1 + ColonAt(header[1..])
  }

  /** An unsigned machine integer, an optional plus sign allowed. */
  function ParseUsize(text: seq<Byte>): Option<nat> {
    var digits := if text != [] && text[0] == PLUS then text[1..] else text;
    if digits == [] then None
    else
      match Decimal.Digits(digits)
      case Some(n) => if n <= USIZE_MAX then Some(n) else None
      case None => None
  }

  /** What one header line leaves as the announced length. */
  function AfterHeader(header: seq<Byte>, length: Option<nat>): Option<nat> {
    var at := ColonAt(header);
    if at < |header| && SameIgnoringCase(header[..at], CONTENT_LENGTH) then
      ParseUsize(TrimRight(TrimLeft(header[at + 1..])))
    else length
  }

  /** Read header lines up to a blank one, then the body; the rest of the stream is left. */
  function MessageOf(stream: seq<Byte>, length: Option<nat>): (Message, seq<Byte>)
    decreases |stream|
  {
    var n := LineLength(stream);
    if n == 0 then (EndOfStream, stream)
    else
      var header := TrimEnd(stream[..n]);
      var rest := stream[n..];
      if header != [] then MessageOf(rest, AfterHeader(header, length))
      else if length.None? then (NoLength, rest)
      else if |rest| < length.value then (CutShort, [])
      else (Body(rest[..length.value]), rest[length.value..])
  }

  method ReadMessage(stream: seq<Byte>) returns (m: Message, rest: seq<Byte>)
    ensures (m, rest) == MessageOf(stream, None)
  {
    var contentLength: Option<nat> := None;
    rest := stream;
    while true
      invariant MessageOf(stream, None) == MessageOf(rest, contentLength)
      decreases |rest|
    {
      var n := LineLength(rest);
      if n == 0 {
        return EndOfStream, rest;
      }
      var header := TrimEnd(rest[..n]);
      rest := rest[n..];
      if header == [] {
        break;
      }
      contentLength := AfterHeader(header, contentLength);
    }
    if contentLength.None? {
      return NoLength, rest;
    }
    if |rest| < contentLength.value {
      return CutShort, [];
    }
    return Body(rest[..contentLength.value]), rest[contentLength.value..];
  }

  lemma {:induction false} LineEndsAtFirstLf(line: seq<Byte>, rest: seq<Byte>)
    requires LF !in line
    ensures LineLength(line + [LF] + rest) == |line| + 1
  {
    var whole := line + [LF] + rest;
    if line != [] {
      assert whole[1..] == line[1..] + [LF] + rest;
      LineEndsAtFirstLf(line[1..], rest);
    }
  }

  lemma TrimEndDrops(line: seq<Byte>, b: Byte)
    requires b == CR || b == LF
    ensures TrimEnd(line + [b]) == TrimEnd(line)
  {
  }

  lemma TrimEndStays(line: seq<Byte>)
    requires line == [] || (line[|line| - 1] != CR && line[|line| - 1] != LF)
    ensures TrimEnd(line) == line
  {
  }

  lemma TrimEndOfCrLf(line: seq<Byte>)
    requires line == [] || (line[|line| - 1] != CR && line[|line| - 1] != LF)
    ensures TrimEnd(line + [CR, LF]) == line
  {
    hide TrimEnd;
    assert line + [CR, LF] == (line + [CR]) + [LF];
    TrimEndDrops(line + [CR], LF);
    TrimEndDrops(line, CR);
    TrimEndStays(line);
  }

  /** One header line terminated by CRLF. */
  lemma HeaderLine(line: seq<Byte>, rest: seq<Byte>, length: Option<nat>)
    requires LF !in line && line != [] && line[|line| - 1] != CR
    ensures MessageOf(line + [CR, LF] + rest, length) == MessageOf(rest, AfterHeader(line, length))
  {
    hide LineLength, TrimEnd;
    var whole := line + [CR, LF] + rest;
    assert whole == (line + [CR]) + [LF] + rest;
    LineEndsAtFirstLf(line + [CR], rest);
    assert whole[..|line| + 2] == line + [CR, LF] && whole[|line| + 2..] == rest;
    TrimEndOfCrLf(line);
  }

  lemma BlankLine(rest: seq<Byte>, length: nat)
    requires |rest| >= length
    ensures MessageOf([CR, LF] + rest, Some(length)) == (Body(rest[..length]), rest[length..])
  {
    hide LineLength, TrimEnd;
    BlankReads(rest);
  }

  /** A line may end in a bare line feed just as well. */
  lemma BareLineFeed(line: seq<Byte>, rest: seq<Byte>, length: Option<nat>)
    requires LF !in line && (line == [] || line[|line| - 1] != CR)
    ensures MessageOf(line + [LF] + rest, length) == MessageOf(line + [CR, LF] + rest, length)
  {
    hide LineLength, TrimEnd, AfterHeader;
    var bare, whole := line + [LF] + rest, line + [CR, LF] + rest;
    assert whole == (line + [CR]) + [LF] + rest;
    LineEndsAtFirstLf(line, rest);
    LineEndsAtFirstLf(line + [CR], rest);
    assert whole[..|line| + 2] == line + [CR, LF] && whole[|line| + 2..] == rest;
    assert bare[..|line| + 1] == line + [LF] && bare[|line| + 1..] == rest;
    TrimEndOfCrLf(line);
    TrimEndDrops(line, LF);
    TrimEndStays(line);
  }

  lemma ColonFollows(name: seq<Byte>, value: seq<Byte>)
    requires COLON !in name
    ensures ColonAt(name + [COLON] + value) == |name|
  {
    if name != [] {
      assert (name + [COLON] + value)[1..] == name[1..] + [COLON] + value;
      ColonFollows(name[1..], value);
    }
  }

  /** The header the agent prints announces exactly the length it was printed for. */
  lemma PrintedHeader(n: nat, length: Option<nat>)
    requires n <= USIZE_MAX
    ensures AfterHeader(CONTENT_LENGTH_SENT + [COLON, SPACE] + Decimal.Print(n), length) == Some(n)
  {
    hide ColonAt, Decimal.Digits, Decimal.Print, TrimLeft, TrimRight, ParseUsize;
    var digits := Decimal.Print(n);
    var value := [SPACE] + digits;
    var header := CONTENT_LENGTH_SENT + [COLON, SPACE] + digits;
    assert header == CONTENT_LENGTH_SENT + [COLON] + value;
    ColonFollows(CONTENT_LENGTH_SENT, value);
    assert header[..14] == CONTENT_LENGTH_SENT && header[15..] == value;
    PrintedValue(n);
  }

  lemma PrintedValue(n: nat)
    requires n <= USIZE_MAX
    ensures ParseUsize(TrimRight(TrimLeft([SPACE] + Decimal.Print(n)))) == Some(n)
  {
    hide Decimal.Digits, Decimal.Print;
    var digits := Decimal.Print(n);
    Decimal.DigitsPrint(n);
    assert Decimal.IsDigit(digits[0]) && Decimal.IsDigit(digits[|digits| - 1]);
    assert ([SPACE] + digits)[1..] == digits;
    assert TrimLeft(digits) == digits && TrimRight(digits) == digits;
  }

  /** Reading undoes encoding, whatever bytes follow. */
  lemma MessageRoundTrip(body: seq<Byte>, rest: seq<Byte>)
    requires |body| <= USIZE_MAX
    ensures MessageOf(Encode(body) + rest, None) == (Body(body), rest)
  {
    hide MessageOf, AfterHeader, Decimal.Print;
    var header := CONTENT_LENGTH_SENT + [COLON, SPACE] + Decimal.Print(|body|);
    var tail := [CR, LF] + (body + rest);
    assert Encode(body) + rest == header + [CR, LF] + tail;
    Decimal.DigitsPrint(|body|);
    assert forall b :: b in header ==> b in CONTENT_LENGTH_SENT || b == COLON || b == SPACE || Decimal.IsDigit(b);
    assert Decimal.IsDigit(header[|header| - 1]);
    HeaderLine(header, tail, None);
    PrintedHeader(|body|, None);
    BlankLine(body + rest, |body|);
    assert (body + rest)[..|body|] == body && (body + rest)[|body|..] == rest;
  }

  /** A header block that announces no length is an error, and so is a body that is cut short. */
  lemma UnusableMessages(body: seq<Byte>, cut: nat, rest: seq<Byte>)
    requires |body| <= USIZE_MAX && cut < |body|
    ensures MessageOf([CR, LF] + rest, None) == (NoLength, rest)
    ensures MessageOf(Encode(body)[..|Encode(body)| - |body| + cut], None) == (CutShort, [])
  {
    hide MessageOf, AfterHeader, Decimal.Print;
    var header := CONTENT_LENGTH_SENT + [COLON, SPACE] + Decimal.Print(|body|);
    var tail := [CR, LF] + body[..cut];
    assert Encode(body)[..|Encode(body)| - |body| + cut] == header + [CR, LF] + tail;
    Decimal.DigitsPrint(|body|);
    assert forall b :: b in header ==> b in CONTENT_LENGTH_SENT || b == COLON || b == SPACE || Decimal.IsDigit(b);
    assert Decimal.IsDigit(header[|header| - 1]);
    HeaderLine(header, tail, None);
    PrintedHeader(|body|, None);
    BlankThenShort(body[..cut], |body|);
    BlankThenNothing(rest);
  }

  lemma BlankThenShort(rest: seq<Byte>, length: nat)
    requires |rest| < length
    ensures MessageOf([CR, LF] + rest, Some(length)) == (CutShort, [])
  {
    hide LineLength, TrimEnd;
    BlankReads(rest);
  }

  lemma BlankThenNothing(rest: seq<Byte>)
    ensures MessageOf([CR, LF] + rest, None) == (NoLength, rest)
  {
    hide LineLength, TrimEnd;
    BlankReads(rest);
  }

  lemma BlankReads(rest: seq<Byte>)
    ensures var whole := [CR, LF] + rest;
            LineLength(whole) == 2 && TrimEnd(whole[..2]) == [] && whole[2..] == rest
  {
    hide LineLength, TrimEnd;
    var whole := [CR, LF] + rest;
    LineEndsAtFirstLf([CR], rest);
    assert whole == [CR] + [LF] + rest;
    TrimEndOfCrLf([]);
    assert [] + [CR, LF] == [CR, LF];
    assert whole[..2] == [CR, LF] && whole[2..] == rest;
  }

  /** A header of any other name changes nothing, before or after the length. */
  lemma OtherHeadersAreIgnored(name: seq<Byte>, value: seq<Byte>, rest: seq<Byte>, length: Option<nat>)
    requires COLON !in name && LF !in name && LF !in value
    requires value == [] || value[|value| - 1] != CR
    requires !SameIgnoringCase(name, CONTENT_LENGTH)
    ensures MessageOf(name + [COLON] + value + [CR, LF] + rest, length) == MessageOf(rest, length)
  {
    hide MessageOf, ColonAt;
    var line := name + [COLON] + value;
    HeaderLine(line, rest, length);
    ColonFollows(name, value);
    assert line[..|name|] == name;
  }

  // ------------------------------------------------------------ what length headers say

  /** The header's name matches in any mixture of cases, and no other name does. */
  lemma LengthNameMatches(name: seq<Byte>)
    ensures SameIgnoringCase(name, CONTENT_LENGTH) <==>
      |name| == 14 && forall i :: 0 <= i < 14 ==>
        name[i] == CONTENT_LENGTH[i] || (CONTENT_LENGTH[i] != 45 && name[i] == CONTENT_LENGTH[i] - 32)
  {
    assert forall i :: 0 <= i < 14 ==> CONTENT_LENGTH[i] == 45 || 97 <= CONTENT_LENGTH[i] <= 122;
    assert forall i :: 0 <= i < 14 ==> Lower(CONTENT_LENGTH[i]) == CONTENT_LENGTH[i];
  }

  predicate Blank(text: seq<Byte>) { forall i :: 0 <= i < |text| ==> text[i] == 32 || 9 <= text[i] <= 13 }

  /** A value that neither starts nor ends with white space. */
  predicate Bare(value: seq<Byte>) { value != [] && !Blank([value[0]]) && !Blank([value[|value| - 1]]) }

  lemma {:induction false} TrimLeftDrops(blank: seq<Byte>, value: seq<Byte>)
    requires Blank(blank) && value != [] && !IsSpace(value[0])
    ensures TrimLeft(blank + value) == value
  {
    if blank == [] {
      assert blank + value == value;
    } else {
      assert (blank + value)[1..] == blank[1..] + value;
      TrimLeftDrops(blank[1..], value);
    }
  }

  lemma {:induction false} TrimRightDrops(value: seq<Byte>, blank: seq<Byte>)
    requires Blank(blank) && value != [] && !IsSpace(value[|value| - 1])
    ensures TrimRight(value + blank) == value
  {
    if blank == [] {
      assert value + blank == value;
    } else {
      var n := |blank| - 1;
      assert (value + blank)[..|value + blank| - 1] == value + blank[..n];
      TrimRightDrops(value, blank[..n]);
    }
  }

  /** What a length header announces is its value, read without the white space around it. */
  lemma LengthHeaderIsRead(name: seq<Byte>, before: seq<Byte>, value: seq<Byte>, after: seq<Byte>, length: Option<nat>)
    requires SameIgnoringCase(name, CONTENT_LENGTH) && Blank(before) && Bare(value) && Blank(after)
    ensures AfterHeader(name + [COLON] + (before + value + after), length) == ParseUsize(value)
  {
    hide ParseUsize, TrimLeft, TrimRight, ColonAt;
    var text := before + value + after;
    NoColonInName(name);
    ColonFollows(name, text);
    var header := name + [COLON] + text;
    assert header[..|name|] == name && header[|name| + 1..] == text;
    BareEnds(value);
    assert text == before + (value + after);
    TrimLeftDrops(before, value + after);
    TrimRightDrops(value, after);
  }

  lemma NoColonInName(name: seq<Byte>)
    requires SameIgnoringCase(name, CONTENT_LENGTH)
    ensures COLON !in name
  {
    LengthNameMatches(name);
  }

  lemma BareEnds(value: seq<Byte>)
    requires Bare(value)
    ensures !IsSpace(value[0]) && !IsSpace(value[|value| - 1])
  {
    assert Blank([value[0]]) <==> [value[0]][0] == 32 || 9 <= [value[0]][0] <= 13;
  }

  /** A length is digits, perhaps after a plus sign, whose number fits 64 bits; anything else is none. */
  lemma LengthsExactly(value: seq<Byte>, n: nat)
    ensures ParseUsize(value) == Some(n) <==>
      exists digits :: digits != [] && (forall b :: b in digits ==> 48 <= b <= 57) && Decimal.Digits(digits) == Some(n)
        && n < 0x1_0000_0000_0000_0000 && (value == digits || value == [43] + digits)
  {
    hide Decimal.Digits;
    if ParseUsize(value) == Some(n) {
      var digits := if value != [] && value[0] == PLUS then value[1..] else value;
      Decimal.DigitsExactly(digits);
      assert value == digits || value == [43] + digits;
    }
    forall digits: seq<Byte> | digits != [] && Decimal.Digits(digits) == Some(n) && n < 0x1_0000_0000_0000_0000
                               && (value == digits || value == [43] + digits)
      ensures ParseUsize(value) == Some(n)
    {
      Decimal.DigitsExactly(digits);
      assert digits[0] in digits;
      if value == [43] + digits { assert value[1..] == digits; }
    }
  }

  function EncodeAll(bodies: seq<seq<Byte>>): seq<Byte> {
    if bodies == [] then [] else Encode(bodies[0]) + EncodeAll(bodies[1..])
  }

  function MessagesOf(stream: seq<Byte>, count: nat): Option<(seq<seq<Byte>>, seq<Byte>)>
    decreases count
  {
    if count == 0 then Some(([], stream))
    else
      match MessageOf(stream, None)
      case (Body(body), rest) =>
        (match MessagesOf(rest, count - 1)
         case None => None
         case Some((more, left)) => Some(([body] + more, left)))
      case _ => None
  }

  lemma OneMoreMessage(stream: seq<Byte>, body: seq<Byte>, rest: seq<Byte>, count: nat)
    requires MessageOf(stream, None) == (Body(body), rest) && MessagesOf(rest, count).Some?
    ensures MessagesOf(stream, count + 1) == Some(([body] + MessagesOf(rest, count).value.0, MessagesOf(rest, count).value.1))
  {
  }

  lemma EncodeAllCons(bodies: seq<seq<Byte>>, rest: seq<Byte>)
    requires bodies != []
    ensures EncodeAll(bodies) + rest == Encode(bodies[0]) + (EncodeAll(bodies[1..]) + rest)
  {
  }

  /** Any number of encoded messages is read back in order, and what follows is left alone. */
  lemma {:induction false} MessagesRoundTrip(bodies: seq<seq<Byte>>, rest: seq<Byte>)
    requires forall b :: b in bodies ==> |b| <= USIZE_MAX
    ensures MessagesOf(EncodeAll(bodies) + rest, |bodies|) == Some((bodies, rest))
    decreases |bodies|
  {
    hide MessageOf, Encode, EncodeAll, MessagesOf;
    if bodies == [] {
      NoMessages(rest);
    } else {
      var tail := EncodeAll(bodies[1..]) + rest;
      EncodeAllCons(bodies, rest);
      MessageRoundTrip(bodies[0], tail);
      MessagesRoundTrip(bodies[1..], rest);
      OneMoreMessage(Encode(bodies[0]) + tail, bodies[0], tail, |bodies| - 1);
      assert bodies == [bodies[0]] + bodies[1..];
    }
  }

  lemma NoMessages(rest: seq<Byte>)
    ensures MessagesOf(EncodeAll([]) + rest, 0) == Some(([], rest))
  {
    assert [] + rest == rest;
  }

  /** Some line of the stream is empty but for its ending. */
  predicate HasBlankLine(stream: seq<Byte>)
    decreases |stream|
  {
    var n := LineLength(stream);
    n > 0 && (TrimEnd(stream[..n]) == [] || HasBlankLine(stream[n..]))
  }

  /** The reader reports a clean end exactly on a stream whose headers are never closed. */
  lemma {:induction false} CleanEndIsNoBlankLine(stream: seq<Byte>, length: Option<nat>)
    ensures MessageOf(stream, length).0 == EndOfStream <==> !HasBlankLine(stream)
    decreases |stream|
  {
    hide TrimEnd, AfterHeader, LineLength;
    var n := LineLength(stream);
    if n > 0 && TrimEnd(stream[..n]) != [] {
      CleanEndIsNoBlankLine(stream[n..], AfterHeader(TrimEnd(stream[..n]), length));
    }
  }

  /** As documented: a clean end is reported when, and only when, nothing of a message was sent. */
  ghost predicate EndsAsDocumented(stream: seq<Byte>) {
    MessageOf(stream, None).0 == EndOfStream <==> stream == []
  }

  /** The reader does so exactly on streams that are empty or hold a blank line. */
  lemma EndsAsDocumentedExactlyWhen(stream: seq<Byte>)
    ensures EndsAsDocumented(stream) <==> stream == [] || HasBlankLine(stream)
  {
    hide MessageOf;
    CleanEndIsNoBlankLine(stream, None);
  }

  /** A stream cut short inside a header line reads as a clean end, and so does one cut after it. */
  lemma EndInsideHeadersIsClean(line: seq<Byte>, length: Option<nat>)
    requires LF !in line && line != [] && line[|line| - 1] != CR
    ensures MessageOf(line, length).0 == EndOfStream
    ensures MessageOf(line + [CR, LF], length).0 == EndOfStream
  {
    hide MessageOf;
    HeaderLine(line, [], length);
    assert line + [CR, LF] + [] == line + [CR, LF];
    NothingLeft(AfterHeader(line, length));
    LastLineIsWhole(line);
    TrimEndStays(line);
    assert line[..|line|] == line && line[|line|..] == [];
    assert !HasBlankLine(line);
    CleanEndIsNoBlankLine(line, length);
  }

  lemma {:induction false} LastLineIsWhole(line: seq<Byte>)
    requires LF !in line
    ensures LineLength(line) == |line|
  {
    if line != [] { LastLineIsWhole(line[1..]); }
  }

  lemma NothingLeft(length: Option<nat>)
    ensures MessageOf([], length) == (EndOfStream, [])
  {
  }
}
