/**
 * JSON strings as the program host counts them: UTF-16 text, quoted as QuoteJSONString of
 * ECMA-262 section 25.5.2 does and carried in UTF-8, as section 8.1 of RFC 8259 asks.
 */
module JsonText {
  import opened Prelude
  import Utf8

  /** One UTF-16 code unit. */
  type Unit = x: int | 0 <= x < 0x10000

  type Text = seq<Unit>

  predicate High(u: Unit) { 0xD800 <= u < 0xDC00 }
  predicate Low(u: Unit) { 0xDC00 <= u < 0xE000 }

  // --------------------------------------------------------------- the quoted string

  /** A code point of a text: a scalar value, or a surrogate that pairs with nothing. */
  datatype Point = Scalar(c: Utf8.Scalar) | Lone(u: Unit)

  /** The first code point and how many units it takes. */
  function FirstPoint(text: Text): (r: (Point, nat))
    requires text != []
    ensures 1 <= r.1 <= 2 && r.1 <= |text|
  {
    var u := text[0];
    if High(u) && |text| > 1 && Low(text[1]) then
      (Scalar(0x10000 + (u as int - 0xD800) * 0x400 + (text[1] as int - 0xDC00)), 2)
    else if High(u) || Low(u) then (Lone(u), 1)
    else (Scalar(u), 1)
  }

  function HexDigit(n: nat): Byte
    requires n < 16
  {
    if n < 10 then 48 + n else 87 + n
  }

  /** The six-byte escape of one code unit, in lower-case hexadecimal. */
  function UnicodeEscape(u: Unit): seq<Byte> {
    [92, 117, HexDigit(u / 4096), HexDigit(u / 256 % 16), HexDigit(u / 16 % 16), HexDigit(u % 16)]
  }

  /** The letter of a two-byte escape, or 0 when the code point has none. */
  function ShortEscape(c: int): Byte {
    if c == 8 then 98
    else if c == 9 then 116
    else if c == 10 then 110
    else if c == 12 then 102
    else if c == 13 then 114
    else if c == 34 then 34
    else if c == 92 then 92
    else 0
  }

  function Escaped(p: Point): seq<Byte> {
    match p
    case Lone(u) => UnicodeEscape(u)
    case Scalar(c) =>
      if ShortEscape(c) != 0 then [92, ShortEscape(c)]
      else if c < 32 then UnicodeEscape(c)
      else Utf8.Encode(c)
  }

  function Body(text: Text): seq<Byte> {
    if text == [] then []
    else
      var (p, w) := FirstPoint(text);
      Escaped(p) + Body(text[w..])
  }

  function Quote(text: Text): seq<Byte> { [34] + Body(text) + [34] }

  // ------------------------------------------------------------------ what it costs

  datatype Step = Step(cost: nat, width: nat)

  /** The serialized cost of the character at an index, and how many units it takes. */
  function CharacterCost(text: Text, index: nat): Step
    requires index < |text|
  {
    var code := text[index];
    if 0xD800 <= code <= 0xDBFF && index + 1 < |text| && 0xDC00 <= text[index + 1] <= 0xDFFF then Step(4, 2)
    else if 0xD800 <= code <= 0xDFFF then Step(6, 1)
    else if code == 8 || code == 9 || code == 10 || code == 12 || code == 13 || code == 34 || code == 92 then Step(2, 1)
    else if code < 32 then Step(6, 1)
    else if code < 0x80 then Step(1, 1)
    else if code < 0x800 then Step(2, 1)
    else Step(3, 1)
  }

  /** The cost is the exact length of the escape, and the width that of the code point. */
  lemma CostIsExact(text: Text, index: nat)
    requires index < |text|
    ensures var (p, w) := FirstPoint(text[index..]);
            CharacterCost(text, index) == Step(|Escaped(p)|, w)
  {
  }

  /** No surrogate pair spans the cut. */
  predicate Boundary(text: Text, at: nat)
    requires at <= |text|
  {
    !(0 < at < |text| && High(text[at - 1]) && Low(text[at]))
  }

  /** Quoting splits wherever no surrogate pair does. */
  lemma {:induction false} BodyConcat(a: Text, b: Text)
    requires Boundary(a + b, |a|)
    ensures Body(a + b) == Body(a) + Body(b)
    decreases |a|
  {
    hide Escaped;
    if a == [] {
      assert a + b == b;
    } else {
      var (p, w) := FirstPoint(a);
      FirstPointExtends(a, b);
      assert (a + b)[w..] == a[w..] + b;
      BodyConcat(a[w..], b);
    }
  }

  lemma FirstPointExtends(a: Text, b: Text)
    requires a != [] && Boundary(a + b, |a|)
    ensures FirstPoint(a + b) == FirstPoint(a)
    ensures Boundary(a[FirstPoint(a).1..] + b, |a| - FirstPoint(a).1)
  {
  }

  /** One step of a counting loop: the prefix grows by one code point and its exact cost. */
  lemma CostAdvances(text: Text, index: nat)
    requires index < |text| && Boundary(text, index)
    ensures var step := CharacterCost(text, index);
            && index + step.width <= |text| && Boundary(text, index + step.width)
            && |Body(text[..index + step.width])| == |Body(text[..index])| + step.cost
  {
    hide Escaped, CharacterCost, Body;
    CostIsExact(text, index);
    var (p, w) := FirstPoint(text[index..]);
    var point := text[index..index + w];
    assert text[..index + w] == text[..index] + point;
    BodyConcat(text[..index], point);
    OnePoint(text[index..]);
    assert point == text[index..][..w];
  }

  lemma OnePoint(text: Text)
    requires text != []
    ensures Body(text[..FirstPoint(text).1]) == Escaped(FirstPoint(text).0)
  {
  }

  /** Going past the next character costs at least that character, even if it is cut in two. */
  lemma PastNextCharacter(text: Text, index: nat, end: nat)
    requires index < end <= |text| && Boundary(text, index)
    ensures |Body(text[..end])| >= |Body(text[..index])| + CharacterCost(text, index).cost
  {
    hide Escaped, Body;
    var more := text[index..end];
    assert text[..end] == text[..index] + more;
    BodyConcat(text[..index], more);
    CostIsExact(more, 0);
    assert more[0..] == more;
    assert |Body(more)| >= CharacterCost(more, 0).cost by { BodyStarts(more); }
    assert CharacterCost(more, 0).cost >= CharacterCost(text, index).cost;
  }

  lemma BodyStarts(text: Text)
    requires text != []
    ensures |Body(text)| >= |Escaped(FirstPoint(text).0)|
  {
  }

  datatype Limit = Unlimited | AtMost(bytes: int)

  predicate Within(bytes: int, limit: Limit) { limit.AtMost? ==> bytes <= limit.bytes }

  /** The bytes of the quoted string, or nothing once they pass the limit. */
  method JsonStringBytesUpTo(text: Text, limit: Limit) returns (r: Option<nat>)
    ensures r == if Within(|Quote(text)|, limit) then Some(|Quote(text)|) else None
  {
    hide Body, CharacterCost;
    if limit.AtMost? && limit.bytes < 2 {
      return None;
    }
    var bytes, index := 2, 0;
    EmptyBody();
    while index < |text|
      invariant 0 <= index <= |text| && Boundary(text, index)
      invariant bytes == 2 + |Body(text[..index])| && Within(bytes, limit)
      decreases |text| - index
    {
      var step := CharacterCost(text, index);
      CostAdvances(text, index);
      CostIsExact(text, index);
      bytes := bytes + step.cost;
      if !Within(bytes, limit) {
        PastNextCharacter(text, index, |text|);
        assert text[..|text|] == text;
        return None;
      }
      index := index + step.width;
    }
    assert text[..index] == text;
    return Some(bytes);
  }

  lemma EmptyBody()
    ensures Body([]) == [] && forall text: Text :: Body(text[..0]) == []
  {
  }

  /** The longest prefix whose quoted form stays within the limit. */
  ghost predicate LongestWithin(text: Text, end: nat, limit: int)
    requires end <= |text|
  {
    && Boundary(text, end)
    && (end > 0 ==> |Quote(text[..end])| <= limit)
    && forall e :: end < e <= |text| ==> |Quote(text[..e])| > limit
  }

  /** The longest prefix that fits; it never ends inside a surrogate pair. */
  method TruncateJsonString(text: Text, limit: int) returns (prefix: Text)
    ensures |prefix| <= |text| && prefix == text[..|prefix|] && LongestWithin(text, |prefix|, limit)
  {
    hide Body, CharacterCost;
    if limit < 2 {
      return [];
    }
    var bytes, end, index := 2, 0, 0;
    EmptyBody();
    while index < |text|
      invariant 0 <= index <= |text| && Boundary(text, index) && end == index
      invariant bytes == 2 + |Body(text[..index])| && bytes <= limit
      decreases |text| - index
    {
      var step := CharacterCost(text, index);
      CostAdvances(text, index);
      CostIsExact(text, index);
      if bytes + step.cost > limit {
        forall e | index < e <= |text| ensures |Quote(text[..e])| > limit {
          PastNextCharacter(text, index, e);
        }
        break;
      }
      bytes := bytes + step.cost;
      index := index + step.width;
      end := index;
    }
    return text[..end];
  }
}
