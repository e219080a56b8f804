/** Reading wire tokens back: what the elements of a received array say. */
module PtcMarker {
  import opened Prelude
  import opened JsonText
  import opened PtcValue
  import opened PtcForest

  const KIND: Text := [107, 105, 110, 100]
  const LENGTH: Text := [108, 101, 110, 103, 116, 104]
  const KEYS: Text := [107, 101, 121, 115]
  const ARRAY: Text := [97, 114, 114, 97, 121]
  const OBJECT: Text := [111, 98, 106, 101, 99, 116]

  /** Reading an own property; a missing one reads as undefined. */
  function Get(properties: seq<Property>, name: Text): Value {
    if properties == [] then Exotic
    else if properties[0].key == Name(name) then properties[0].value
    else Get(properties[1..], name)
  }

  predicate Has(properties: seq<Property>, name: Text) {
    exists p :: p in properties && p.key == Name(name)
  }

  /** An array length: a safe integer not below zero; negative zero counts as zero. */
  function LengthOf(v: Value): Option<nat> {
    if v.Plain? && v.s.Num? then
      match v.s.number
      case Integer(n) => if 0 <= n <= MAX_SAFE_INTEGER then Some(n) else None
      case NegativeZero => Some(0)
      case _ => None
    else None
  }

  /** The elements of an array, when every index holds a string. */
  function Strings(node: Node): (r: Option<seq<Text>>)
    requires node.ArrayNode?
    ensures r.Some? ==> |r.value| == node.length
  {
    if forall i :: 0 <= i < node.length ==> HoldsString(node, i) then
      Some(seq(node.length, i requires 0 <= i < node.length && HoldsString(node, i) => node.elements[i].s.text))
    else None
  }

  predicate HoldsString(node: Node, i: nat)
    requires node.ArrayNode?
  {
    i in node.elements && node.elements[i].Plain? && node.elements[i].s.Str?
  }

  /** The keys of an object marker: a dense array of distinct strings. */
  function KeysOf(h: Heap, v: Value): Option<seq<Text>> {
    if v.Object? && v.r in h && h[v.r].ArrayNode? && |h[v.r].elements| + h[v.r].extras == h[v.r].length then
      match Strings(h[v.r])
      case None => None
      case Some(keys) => if Distinct(keys) then Some(keys) else None
    else None
  }

  function DecodeMarker(h: Heap, v: Value): Option<Token> {
    if !v.Object? || v.r !in h || h[v.r].ArrayNode? || !h[v.r].plain then None
    else
      var properties := h[v.r].properties;
      if |properties| != 2 || !Has(properties, KIND) then None
      else if Get(properties, KIND) == Plain(Str(ARRAY)) && Has(properties, LENGTH) then
        match LengthOf(Get(properties, LENGTH)) case None => None case Some(n) => Some(ArrayMarker(n))
      else if Get(properties, KIND) == Plain(Str(OBJECT)) && Has(properties, KEYS) then
        match KeysOf(h, Get(properties, KEYS)) case None => None case Some(keys) => Some(ObjectMarker(keys))
      else None
  }

  function DecodeToken(h: Heap, v: Value): (r: Option<Token>)
    ensures r.Some? ==> ValidToken(r.value)
  {
    if v.Plain? then (if Lossless(v.s) then Some(Atom(v.s)) else None) else DecodeMarker(h, v)
  }

  function DecodeTokens(h: Heap, input: seq<Value>): (r: Option<seq<Token>>)
    ensures r.Some? ==> |r.value| == |input| && forall t :: t in r.value ==> ValidToken(t)
  {
    if input == [] then Some([])
    else
      match DecodeTokens(h, input[..|input| - 1])
      case None => None
      case Some(w) =>
        match DecodeToken(h, input[|input| - 1])
        case None => None
        case Some(t) => Some(w + [t])
  }

  lemma {:induction false} DecodedPrefix(h: Heap, input: seq<Value>, i: nat)
    requires DecodeTokens(h, input).Some? && i <= |input|
    ensures var w := DecodeTokens(h, input).value;
            && DecodeTokens(h, input[..i]) == Some(w[..i])
            && (i < |input| ==> DecodeToken(h, input[i]) == Some(w[i]))
    decreases |input|
  {
    hide DecodeToken;
    if i == |input| {
      var w := DecodeTokens(h, input).value;
      assert input[..i] == input && w[..i] == w;
    } else {
      var n := |input| - 1;
      var w, v := DecodeTokens(h, input).value, DecodeTokens(h, input[..n]).value;
      assert w[..n] == v;
      if i < n {
        DecodedPrefix(h, input[..n], i);
        assert input[..n][..i] == input[..i] && v[..i] == w[..i];
      }
    }
  }

  lemma DecodeTokensSnoc(h: Heap, input: seq<Value>, v: Value)
    requires DecodeTokens(h, input).Some? && DecodeToken(h, v).Some?
    ensures DecodeTokens(h, input + [v]) == Some(DecodeTokens(h, input).value + [DecodeToken(h, v).value])
  {
  }

  /** The reader of one marker, which also copies its keys. */
  method ContainerMarker(h: Heap, token: Value) returns (marker: Option<Token>)
    ensures marker == DecodeMarker(h, token)
  {
    hide Get, Has;
    if !token.Object? || token.r !in h || h[token.r].ArrayNode? {
      return None;
    }
    var node := h[token.r];
    if !node.plain {
      return None;
    }
    NamesDiffer();
    if Get(node.properties, KIND) == Plain(Str(ARRAY)) {
      if |node.properties| != 2 || !Has(node.properties, KIND) || !Has(node.properties, LENGTH) {
        return None;
      }
      var length := LengthOf(Get(node.properties, LENGTH));
      if length.None? {
        return None;
      }
      return Some(ArrayMarker(length.value));
    }
    if Get(node.properties, KIND) == Plain(Str(OBJECT)) {
      if |node.properties| != 2 || !Has(node.properties, KIND) || !Has(node.properties, KEYS) {
        return None;
      }
      var list := Get(node.properties, KEYS);
      if !list.Object? || list.r !in h || h[list.r].ObjectNode? {
        return None;
      }
      var keys := CopiedKeys(h[list.r]);
      if keys.None? {
        return None;
      }
      return Some(ObjectMarker(keys.value));
    }
    return None;
  }

  method CopiedKeys(list: Node) returns (keys: Option<seq<Text>>)
    requires list.ArrayNode?
    ensures keys == if |list.elements| + list.extras == list.length && Strings(list).Some? && Distinct(Strings(list).value)
                    then Strings(list) else None
  {
    if |list.elements| + list.extras != list.length {
      return None;
    }
    var seen: set<Text> := {};
    var normalized: seq<Text> := [];
    for index := 0 to list.length
      invariant |normalized| == index
      invariant forall i :: 0 <= i < index ==> HoldsString(list, i) && normalized[i] == list.elements[i].s.text
      invariant forall t :: t in seen <==> t in normalized
      invariant Distinct(normalized)
    {
      if !HoldsString(list, index) {
        return None;
      }
      var key := list.elements[index].s.text;
      if key in seen {
        ghost var twin :| 0 <= twin < index && normalized[twin] == key;
        assert Strings(list).Some? ==> Strings(list).value[twin] == Strings(list).value[index];
        return None;
      }
      seen := seen + {key};
      normalized := normalized + [key];
    }
    assert Strings(list).Some? && normalized == Strings(list).value;
    return Some(normalized);
  }

  // ------------------------------------------------------------ laying a stream out

  /** The values flattening puts on the wire, as the other side receives them. */
  ghost predicate Carries(h: Heap, input: seq<Value>, wire: seq<Token>) {
    |input| == |wire| && forall i :: 0 <= i < |wire| ==> CarriesToken(h, input[i], wire[i])
  }

  ghost predicate CarriesToken(h: Heap, v: Value, t: Token) {
    match t
    case Atom(s) => v == Plain(s)
    case ArrayMarker(length) =>
      && v.Object? && v.r in h && h[v.r] == ObjectNode(true, [
        Property(Name(KIND), true, Plain(Str(ARRAY))), Property(Name(LENGTH), true, Plain(Num(Integer(length))))])
    case ObjectMarker(keys) =>
      && v.Object? && v.r in h && h[v.r].ObjectNode? && |h[v.r].properties| == 2
      && var list := h[v.r].properties[1].value;
      && h[v.r] == ObjectNode(true, [
        Property(Name(KIND), true, Plain(Str(OBJECT))), Property(Name(KEYS), true, list)])
      && list.Object? && list.r in h && h[list.r].ArrayNode?
      && h[list.r].length == |keys| && h[list.r].extras == 0 && h[list.r].elements.Keys == Indices(|keys|)
      && forall i :: 0 <= i < |keys| ==> h[list.r].elements[i] == Plain(Str(keys[i]))
  }

  predicate Countable(t: Token) { t.ArrayMarker? ==> t.length <= MAX_SAFE_INTEGER }

  /** A carried token reads back as itself. */
  lemma CarriedTokenDecodes(h: Heap, v: Value, t: Token)
    requires CarriesToken(h, v, t) && ValidToken(t) && Countable(t)
    ensures DecodeToken(h, v) == Some(t)
  {
    hide Get, Has, KeysOf, Distinct, DecodeMarker, CarriesToken;
    match t
    case Atom(_) => assert v == Plain(t.s) by { CarriedAtom(h, v, t.s); }
    case ArrayMarker(length) => CarriedArrayDecodes(h, v, length);
    case ObjectMarker(keys) => CarriedObjectDecodes(h, v, keys);
  }

  lemma CarriedAtom(h: Heap, v: Value, s: Scalar)
    requires CarriesToken(h, v, Atom(s))
    ensures v == Plain(s)
  {
  }

  lemma CarriedArrayDecodes(h: Heap, v: Value, length: nat)
    requires CarriesToken(h, v, ArrayMarker(length)) && length <= MAX_SAFE_INTEGER
    ensures v.Object? && DecodeMarker(h, v) == Some(ArrayMarker(length))
  {
    hide Get, Has, KeysOf;
    NamesDiffer();
    PairReads(h[v.r].properties, LENGTH);
  }

  lemma CarriedObjectDecodes(h: Heap, v: Value, keys: seq<Text>)
    requires CarriesToken(h, v, ObjectMarker(keys)) && Distinct(keys)
    ensures v.Object? && DecodeMarker(h, v) == Some(ObjectMarker(keys))
  {
    hide Get, Has, KeysOf, Distinct;
    NamesDiffer();
    PairReads(h[v.r].properties, KEYS);
    CarriedKeysRead(h, h[v.r].properties[1].value, keys);
  }

  lemma NamesDiffer()
    ensures KIND != LENGTH && KIND != KEYS && ARRAY != OBJECT
  {
  }

  lemma PairReads(properties: seq<Property>, second: Text)
    requires |properties| == 2 && properties[0].key == Name(KIND) && properties[1].key == Name(second) && second != KIND
    ensures Has(properties, KIND) && Has(properties, second)
    ensures Get(properties, KIND) == properties[0].value && Get(properties, second) == properties[1].value
  {
  }

  lemma CarriedKeysRead(h: Heap, list: Value, keys: seq<Text>)
    requires list.Object? && list.r in h && h[list.r].ArrayNode? && Distinct(keys)
    requires h[list.r].length == |keys| && h[list.r].extras == 0 && h[list.r].elements.Keys == Indices(|keys|)
    requires forall i :: 0 <= i < |keys| ==> h[list.r].elements[i] == Plain(Str(keys[i]))
    ensures KeysOf(h, list) == Some(keys)
  {
    var node := h[list.r];
    assert |node.elements| == |node.elements.Keys|;
    assert forall i :: 0 <= i < node.length ==> HoldsString(node, i);
    assert Strings(node).value == keys;
  }

  lemma {:induction false} CarriedDecodes(h: Heap, input: seq<Value>, wire: seq<Token>)
    requires Carries(h, input, wire)
    requires forall t :: t in wire ==> ValidToken(t) && Countable(t)
    ensures DecodeTokens(h, input) == Some(wire)
    decreases |wire|
  {
    hide DecodeToken, CarriesToken, ValidToken, Countable;
    if wire != [] {
      var n := |wire| - 1;
      CarriedDecodes(h, input[..n], wire[..n]);
      CarriedTokenDecodes(h, input[n], wire[n]);
      assert wire == wire[..n] + [wire[n]];
    }
  }

  // ------------------------------------------------------------- what reads as a token

  /** The object has two own properties, these two in either order, with these values. */
  ghost predicate IsPair(node: Node, kind: Text, name: Text, value: Value) {
    && node.ObjectNode? && node.plain && |node.properties| == 2
    && exists i :: 0 <= i < 2
         && node.properties[i].key == Name(KIND) && node.properties[i].value == Plain(Str(kind))
         && node.properties[1 - i].key == Name(name) && node.properties[1 - i].value == value
  }

  /** A dense array of these strings, with no other own key. */
  ghost predicate IsListOf(h: Heap, list: Value, keys: seq<Text>) {
    && list.Object? && list.r in h && h[list.r].ArrayNode?
    && h[list.r].length == |keys| && h[list.r].extras == 0 && h[list.r].elements.Keys == Indices(|keys|)
    && forall i :: 0 <= i < |keys| ==> h[list.r].elements[i] == Plain(Str(keys[i]))
  }

  ghost predicate ReadsAs(h: Heap, v: Value, t: Token) {
    match t
    case Atom(s) => v == Plain(s) && Lossless(s)
    case ArrayMarker(length) =>
      && v.Object? && v.r in h && length <= MAX_SAFE_INTEGER
      && (IsPair(h[v.r], ARRAY, LENGTH, Plain(Num(Integer(length))))
          || (length == 0 && IsPair(h[v.r], ARRAY, LENGTH, Plain(Num(NegativeZero)))))
    case ObjectMarker(keys) =>
      && v.Object? && v.r in h && Distinct(keys)
      && exists list: Value :: IsPair(h[v.r], OBJECT, KEYS, list) && IsListOf(h, list, keys)
  }

  /** A value reads as a token exactly when it is the token's scalar or the marker laid out, and nothing more. */
  lemma TokensReadExactly(h: Heap, v: Value, t: Token)
    ensures DecodeToken(h, v) == Some(t) <==> ReadsAs(h, v, t)
  {
    hide DecodeMarker;
    match t
    case Atom(s) => MarkersAreNoAtoms(h, v, s);
    case ArrayMarker(length) => ArraysReadExactly(h, v, length);
    case ObjectMarker(keys) => ObjectsReadExactly(h, v, keys);
  }

  lemma MarkersAreNoAtoms(h: Heap, v: Value, s: Scalar)
    ensures DecodeMarker(h, v) != Some(Atom(s))
  {
    hide Get, Has, KeysOf;
  }

  lemma ArraysReadExactly(h: Heap, v: Value, length: nat)
    ensures !v.Plain? ==> (DecodeMarker(h, v) == Some(ArrayMarker(length)) <==> ReadsAs(h, v, ArrayMarker(length)))
  {
    hide Get, Has, KeysOf;
    NamesDiffer();
    if v.Object? && v.r in h && h[v.r].ObjectNode? && |h[v.r].properties| == 2 {
      TwoRead(h[v.r].properties, LENGTH);
    }
  }

  lemma ObjectsReadExactly(h: Heap, v: Value, keys: seq<Text>)
    ensures !v.Plain? ==> (DecodeMarker(h, v) == Some(ObjectMarker(keys)) <==> ReadsAs(h, v, ObjectMarker(keys)))
  {
    hide Get, Has, KeysOf, Distinct, IsListOf;
    NamesDiffer();
    if v.Object? && v.r in h && h[v.r].ObjectNode? && |h[v.r].properties| == 2 {
      var properties := h[v.r].properties;
      TwoRead(properties, KEYS);
      ListsReadExactly(h, Get(properties, KEYS), keys);
      forall list | IsPair(h[v.r], OBJECT, KEYS, list) ensures list == Get(properties, KEYS) {}
    }
  }

  /** Two own properties, one of them the kind: the other is the one that is there. */
  lemma TwoRead(properties: seq<Property>, name: Text)
    requires |properties| == 2 && name != KIND
    ensures Has(properties, KIND) && Has(properties, name) <==>
      exists i :: 0 <= i < 2 && properties[i].key == Name(KIND) && properties[1 - i].key == Name(name)
    ensures forall i :: 0 <= i < 2 && properties[i].key == Name(KIND) && properties[1 - i].key == Name(name) ==>
      Get(properties, KIND) == properties[i].value && Get(properties, name) == properties[1 - i].value
  {
    assert properties == [properties[0], properties[1]];
    if properties[0].key == Name(KIND) && properties[1].key == Name(name) {
      PairReads(properties, name);
    } else if properties[1].key == Name(KIND) && properties[0].key == Name(name) {
      assert properties[1..] == [properties[1]];
      assert properties[1] in properties && properties[0] in properties;
    }
  }

  lemma ListsReadExactly(h: Heap, list: Value, keys: seq<Text>)
    ensures KeysOf(h, list) == Some(keys) <==> IsListOf(h, list, keys) && Distinct(keys)
  {
    hide Distinct;
    if IsListOf(h, list, keys) && Distinct(keys) { CarriedKeysRead(h, list, keys); }
    if KeysOf(h, list) == Some(keys) {
      var node := h[list.r];
      assert |node.elements| == |node.elements.Keys|;
      forall i: nat | i < node.length ensures i in node.elements && node.elements[i] == Plain(Str(keys[i])) {
        assert HoldsString(node, i) && Strings(node).value[i] == node.elements[i].s.text;
      }
      assert Indices(node.length) <= node.elements.Keys;
      SubsetOfEqualSize(Indices(node.length), node.elements.Keys);
    }
  }
}
