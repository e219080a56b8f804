/** What a completion value is charged: its JSON text without the separating commas. */
module WireBytes {
  import opened Prelude
  import opened JsonText
  import opened PtcValue
  import opened PtcForest
  import Decimal
  import Ledger
  import PtcFlatten
  import PtcTransfer

  // ------------------------------------------------------------------- the JSON text

  function SpellInteger(n: int): seq<Byte> { if n < 0 then [45] + Decimal.Print(-n) else Decimal.Print(n) }

  /** The number an integer's spelling stands for. */
  function SpeltInteger(text: seq<Byte>): Option<int> {
    var below := text != [] && text[0] == 45;
    var digits := Decimal.Digits(if below then text[1..] else text);
    if digits.None? then None
    else
      var n: int := digits.value;
      Some(if below then -n else n)
  }

  /** A spelling stands for its integer, has a sign only below zero and no leading zero (section 6 of RFC 8259). */
  lemma IntegersAreSpelt(n: int)
    ensures SpeltInteger(SpellInteger(n)) == Some(n)
    ensures SpellInteger(n) != [] && (SpellInteger(n)[0] == 45 <==> n < 0) && (SpellInteger(n)[0] == 48 ==> n == 0)
  {
    hide Decimal.Print, Decimal.Digits;
    var m: nat := if n < 0 then -n else n;
    Decimal.DigitsPrint(m);
    Decimal.NoLeadingZero(m);
    assert Decimal.Print(m)[0] in Decimal.Print(m);
    assert ([45] + Decimal.Print(m))[1..] == Decimal.Print(m);
  }

  /** The JSON text of a scalar; negative zero and non-finite numbers have none of their own. */
  function ScalarJson(s: Scalar): seq<Byte> {
    match s
    case Null => [110, 117, 108, 108]
    case Bool(b) => if b then [116, 114, 117, 101] else [102, 97, 108, 115, 101]
    case Str(text) => Quote(text)
    case Num(Integer(n)) => SpellInteger(n)
    case Num(OtherFinite(spelling)) => spelling
    case Num(_) => [48]
  }

  /** The JSON text of a tree (section 2 of RFC 8259, without insignificant whitespace). */
  function Json(t: Tree): seq<Byte>
    decreases t
  {
    match t
    case Leaf(s) => ScalarJson(s)
    case Branch(marker, children) =>
      if marker.ObjectMarker? && |marker.keys| == |children| then [123] + Joined(Members(marker.keys, JsonAll(children))) + [125]
      else [91] + Joined(JsonAll(children)) + [93]
  }

  function JsonAll(ts: seq<Tree>): (r: seq<seq<Byte>>)
    ensures |r| == |ts| && forall i :: 0 <= i < |ts| ==> r[i] == Json(ts[i])
    decreases ts
  {
    if ts == [] then [] else [Json(ts[0])] + JsonAll(ts[1..])
  }

  function Members(keys: seq<Text>, values: seq<seq<Byte>>): (r: seq<seq<Byte>>)
    requires |keys| == |values|
    ensures |r| == |keys|
  {
    if keys == [] then [] else [Quote(keys[0]) + [58] + values[0]] + Members(keys[1..], values[1..])
  }

  /** Elements separated by commas. */
  function Joined(elements: seq<seq<Byte>>): seq<Byte> {
    if elements == [] then []
    else if |elements| == 1 then elements[0]
    else elements[0] + [44] + Joined(elements[1..])
  }

  /** How many commas separate elements anywhere in the tree. */
  function Commas(t: Tree): nat
    decreases t
  {
    match t
    case Leaf(_) => 0
    case Branch(_, children) => Max(0, |children| - 1) + CommasAll(children)
  }

  function CommasAll(ts: seq<Tree>): nat
    decreases ts
  {
    if ts == [] then 0 else Commas(ts[0]) + CommasAll(ts[1..])
  }

  // ------------------------------------------------------------------- what is charged

  function Sum(ns: seq<nat>): nat {
    if ns == [] then 0 else ns[0] + Sum(ns[1..])
  }

  function KeyBytes(keys: seq<Text>): nat {
    if keys == [] then 0 else KeyBytes(keys[..|keys| - 1]) + |Quote(keys[|keys| - 1])| + 1
  }

  function TokenBytes(t: Token): nat {
    match t
    case Atom(s) => |ScalarJson(s)|
    case ArrayMarker(_) => 2
    case ObjectMarker(keys) => 2 + KeyBytes(keys)
  }

  function StreamBytes(wire: seq<Token>): nat {
    if wire == [] then 0 else StreamBytes(wire[..|wire| - 1]) + TokenBytes(wire[|wire| - 1])
  }

  lemma {:induction false} StreamBytesAppend(a: seq<Token>, b: seq<Token>)
    ensures StreamBytes(a + b) == StreamBytes(a) + StreamBytes(b)
    decreases |b|
  {
    hide TokenBytes;
    if b == [] {
      assert a + b == a;
    } else {
      var n := |b| - 1;
      assert (a + b)[..|a + b| - 1] == a + b[..n];
      StreamBytesAppend(a, b[..n]);
    }
  }

  function LengthAll(parts: seq<seq<Byte>>): nat {
    if parts == [] then 0 else |parts[0]| + LengthAll(parts[1..])
  }

  lemma {:induction false} JoinedLength(parts: seq<seq<Byte>>)
    ensures |Joined(parts)| == LengthAll(parts) + Max(0, |parts| - 1)
  {
    if parts != [] { JoinedLength(parts[1..]); }
  }

  lemma {:induction false} KeyBytesCons(key: Text, keys: seq<Text>)
    ensures KeyBytes([key] + keys) == |Quote(key)| + 1 + KeyBytes(keys)
    decreases |keys|
  {
    hide Quote;
    if keys == [] {
      assert ([key] + keys)[..0] == [];
    } else {
      var n := |keys| - 1;
      assert ([key] + keys)[..n + 1] == [key] + keys[..n];
      KeyBytesCons(key, keys[..n]);
    }
  }

  lemma {:induction false} MembersLength(keys: seq<Text>, values: seq<seq<Byte>>)
    requires |keys| == |values|
    ensures LengthAll(Members(keys, values)) == KeyBytes(keys) + LengthAll(values)
    decreases |keys|
  {
    hide Quote;
    if keys != [] {
      MembersLength(keys[1..], values[1..]);
      KeyBytesCons(keys[0], keys[1..]);
      assert [keys[0]] + keys[1..] == keys;
    }
  }

  /** The stream of a tree costs its JSON text but for the separating commas. */
  lemma {:induction false} StreamBytesAreJson(t: Tree)
    requires Proper(t)
    ensures StreamBytes(Preorder(t)) + Commas(t) == |Json(t)|
    decreases t
  {
    hide ScalarJson, KeyBytes, StreamBytes, Joined, Members;
    match t
    case Leaf(s) =>
      OneToken(Atom(s));
    case Branch(marker, children) =>
      StreamBytesAllAreJson(children);
      StreamBytesAppend([marker], PreorderAll(children));
      OneToken(marker);
      JoinedLength(JsonAll(children));
      if marker.ObjectMarker? {
        JoinedLength(Members(marker.keys, JsonAll(children)));
        MembersLength(marker.keys, JsonAll(children));
      }
  }

  lemma OneToken(t: Token)
    ensures StreamBytes([t]) == TokenBytes(t)
  {
  }

  lemma {:induction false} StreamBytesAllAreJson(ts: seq<Tree>)
    requires forall t :: t in ts ==> Proper(t)
    ensures StreamBytes(PreorderAll(ts)) + CommasAll(ts) == LengthAll(JsonAll(ts))
    decreases ts
  {
    hide Preorder, Proper, Commas, Json;
    if ts == [] {
      assert StreamBytes([]) == 0;
    } else {
      assert ts[0] in ts;
      StreamBytesAreJson(ts[0]);
      StreamBytesAllAreJson(ts[1..]);
      StreamBytesAppend(Preorder(ts[0]), PreorderAll(ts[1..]));
      assert JsonAll(ts)[1..] == JsonAll(ts[1..]);
    }
  }

  /** The bytes a flattened value is charged. */
  method WireBytes(wire: seq<Token>) returns (bytes: nat)
    ensures forall t :: Proper(t) && Preorder(t) == wire ==> bytes + Commas(t) == |Json(t)|
  {
    hide Proper, Preorder, Json, Commas, Quote, StreamBytes, KeyBytes, SpellInteger;
    bytes := 0;
    NoBytes();
    for index := 0 to |wire|
      invariant bytes == StreamBytes(wire[..index])
    {
      var token := wire[index];
      StreamBytesAppend(wire[..index], [token]);
      OneToken(token);
      assert wire[..index + 1] == wire[..index] + [token];
      match token {
        case Atom(Null) => bytes := bytes + 4;
        case Atom(Bool(b)) => bytes := bytes + if b then 4 else 5;
        case Atom(Num(n)) => bytes := bytes + |ScalarJson(token.s)|;
        case Atom(Str(text)) =>
          var quoted := Ledger.JsonStringBytes(text);
          bytes := bytes + quoted;
        case ArrayMarker(_) => bytes := bytes + 2;
        case ObjectMarker(keys) =>
          bytes := bytes + 2;
          for keyIndex := 0 to |keys|
            invariant bytes == StreamBytes(wire[..index]) + 2 + KeyBytes(keys[..keyIndex])
          {
            var quoted := Ledger.JsonStringBytes(keys[keyIndex]);
            KeyBytesSnoc(keys[..keyIndex], keys[keyIndex]);
            assert keys[..keyIndex + 1] == keys[..keyIndex] + [keys[keyIndex]];
            bytes := bytes + quoted + 1;
          }
          assert keys[..|keys|] == keys;
      }
    }
    assert wire[..|wire|] == wire;
    forall t: Tree | Proper(t) && Preorder(t) == wire ensures bytes + Commas(t) == |Json(t)| {
      StreamBytesAreJson(t);
    }
  }

  lemma NoBytes()
    ensures StreamBytes([]) == 0 && KeyBytes([]) == 0
    ensures forall w: seq<Token> :: StreamBytes(w[..0]) == 0
    ensures forall ks: seq<Text> :: KeyBytes(ks[..0]) == 0
  {
  }

  lemma KeyBytesSnoc(keys: seq<Text>, key: Text)
    ensures KeyBytes(keys + [key]) == KeyBytes(keys) + |Quote(key)| + 1
  {
  }

  // ---------------------------------------------------------------------- completion

  datatype Completion = Nothing | Completed(wire: seq<Token>) | InvalidOutput | OutputLimit

  /**
   * What a program's result becomes; no value stands for undefined. A value whose JSON text
   * fits is never refused, and one that is delivered exceeds the rest of the budget by no more
   * than its commas.
   */
  method Complete(h: Heap, value: Option<Value>, remaining: int, refusal: Text) returns (outcome: Completion)
    requires PtcTransfer.WellFormed(h)
    ensures value.None? <==> outcome.Nothing?
    ensures value.Some? ==>
      match Unfold(h, value.value, {})
      case None => outcome == if |Quote(refusal)| <= remaining then InvalidOutput else OutputLimit
      case Some(t) =>
        && (outcome == Completed(Preorder(t)) || outcome == OutputLimit)
        && (outcome.Completed? <==> |Json(t)| - Commas(t) <= remaining)
        && (|Json(t)| <= remaining ==> outcome.Completed?)
  {
    hide Unfold, Preorder, Quote, Json, Commas, Proper;
    if value.None? {
      return Nothing;
    }
    var wire := PtcFlatten.Flatten(h, value.value);
    if wire.None? {
      var bytes := JsonStringBytesUpTo(refusal, AtMost(remaining));
      if bytes.None? {
        return OutputLimit;
      }
      return InvalidOutput;
    }
    ghost var t := Unfold(h, value.value, {}).value;
    var bytes := WireBytes(wire.value);
    PtcTransfer.UnfoldedIsEmittable(h, value.value, {});
    if bytes > remaining {
      return OutputLimit;
    }
    return Completed(wire.value);
  }
}
