/**
 * The order of an object's own keys: array indices first, ascending, then the other strings in
 * the order they were created (OrdinaryOwnPropertyKeys, section 10.1.11.1 of ECMA-262).
 */
module PtcKeyOrder {
  import opened JsonText
  import opened PtcValue

  const MAX_INDEX: nat := 0xFFFF_FFFE

  function DigitsValue(key: Text): nat {
    if key == [] then 0 else 10 * DigitsValue(key[..|key| - 1]) + (if key[|key| - 1] >= 48 then key[|key| - 1] - 48 else 0)
  }

  /** A canonical numeral of an array index. */
  predicate IsIndex(key: Text) {
    && key != [] && (forall u :: u in key ==> 48 <= u <= 57)
    && (key[0] == 48 ==> |key| == 1)
    && DigitsValue(key) <= MAX_INDEX
  }

  /** A new key goes in front of an existing one. */
  predicate Precedes(key: Text, other: Text) {
    IsIndex(key) && (!IsIndex(other) || DigitsValue(key) < DigitsValue(other))
  }

  /** Where a new key goes among the keys an object has. */
  function Insert<T>(pairs: seq<(Text, T)>, key: Text, x: T): (r: seq<(Text, T)>)
    ensures |r| == |pairs| + 1
  {
    if pairs == [] then [(key, x)]
    else if Precedes(key, pairs[0].0) then [(key, x)] + pairs
    else [pairs[0]] + Insert(pairs[1..], key, x)
  }

  /** The own properties after creating these keys one after the other. */
  function Arranged<T>(keys: seq<Text>, xs: seq<T>): (r: seq<(Text, T)>)
    requires |xs| <= |keys|
    ensures |r| == |xs|
    decreases |xs|
  {
    if xs == [] then []
    else
      var n := |xs| - 1;
      Insert(Arranged(keys, xs[..n]), keys[n], xs[n])
  }

  function Firsts<T>(pairs: seq<(Text, T)>): (r: seq<Text>)
    ensures |r| == |pairs| && forall i :: 0 <= i < |r| ==> r[i] == pairs[i].0
  {
    seq(|pairs|, i requires 0 <= i < |pairs| => pairs[i].0)
  }

  function Seconds<T>(pairs: seq<(Text, T)>): (r: seq<T>)
    ensures |r| == |pairs| && forall i :: 0 <= i < |r| ==> r[i] == pairs[i].1
  {
    seq(|pairs|, i requires 0 <= i < |pairs| => pairs[i].1)
  }

  lemma {:induction false} InsertedKeys<T>(pairs: seq<(Text, T)>, key: Text, x: T)
    ensures forall p :: p in Insert(pairs, key, x) ==> p == (key, x) || p in pairs
  {
    if pairs != [] && !Precedes(key, pairs[0].0) {
      InsertedKeys(pairs[1..], key, x);
    }
  }

  lemma {:induction false} ArrangedKeys<T>(keys: seq<Text>, xs: seq<T>)
    requires |xs| <= |keys|
    ensures forall p :: p in Arranged(keys, xs) ==> p.0 in keys[..|xs|]
    decreases |xs|
  {
    if xs != [] {
      var n := |xs| - 1;
      ArrangedKeys(keys, xs[..n]);
      InsertedKeys(Arranged(keys, xs[..n]), keys[n], xs[n]);
      assert keys[..n + 1] == keys[..n] + [keys[n]];
    }
  }

  // --------------------------------------------------------------- what own-key order is

  /** The canonical numeral of a number. */
  function Numeral(n: nat): Text { if n < 10 then [48 + n] else Numeral(n / 10) + [48 + n % 10] }

  lemma {:induction false} NumeralReads(n: nat)
    ensures var key := Numeral(n);
            key != [] && DigitsValue(key) == n && (forall u :: u in key ==> 48 <= u <= 57) && (key[0] == 48 ==> n == 0)
  {
    if n >= 10 {
      NumeralReads(n / 10);
      assert Numeral(n)[..|Numeral(n)| - 1] == Numeral(n / 10);
    } else {
      assert Numeral(n)[..0] == [];
    }
  }

  lemma {:induction false} DigitsAreNumeral(key: Text)
    requires key != [] && (forall u :: u in key ==> 48 <= u <= 57) && (key[0] == 48 ==> |key| == 1)
    ensures key == Numeral(DigitsValue(key)) && (|key| > 1 ==> DigitsValue(key) >= 10)
  {
    hide DigitsValue;
    var n := |key| - 1;
    assert key == key[..n] + [key[n]] && key[0] in key && key[n] in key;
    if n == 0 {
      OneDigit(key[0]);
      assert key == [key[0]];
    } else {
      assert forall u :: u in key[..n] ==> u in key;
      DigitsAreNumeral(key[..n]);
      if n == 1 {
        OneDigit(key[0]);
        assert key[..1] == [key[0]];
      }
      ValueSnoc(key[..n], key[n]);
      NumeralSnoc(DigitsValue(key[..n]), key[n] - 48);
    }
  }

  lemma ValueSnoc(high: Text, u: Unit)
    requires 48 <= u <= 57
    ensures DigitsValue(high + [u]) == 10 * DigitsValue(high) + u - 48
  {
    assert (high + [u])[..|high|] == high;
  }

  lemma NumeralSnoc(high: nat, low: nat)
    requires high >= 1 && low < 10
    ensures Numeral(10 * high + low) == Numeral(high) + [48 + low]
  {
    assert (10 * high + low) / 10 == high && (10 * high + low) % 10 == low;
  }

  lemma OneDigit(u: Unit)
    requires 48 <= u <= 57
    ensures DigitsValue([u]) == u - 48
  {
    assert [u][..0] == [];
  }

  /** The array indices are the numerals of the numbers below 2^32 - 1. */
  lemma IndexExactly(key: Text)
    ensures IsIndex(key) <==> exists n: nat :: n <= MAX_INDEX && key == Numeral(n)
  {
    if IsIndex(key) { DigitsAreNumeral(key); }
    forall n: nat | n <= MAX_INDEX && key == Numeral(n) ensures IsIndex(key) { NumeralReads(n); if n >= 10 { NumeralReads(n / 10); } }
  }

  /** An index comes after smaller indices only. */
  predicate Follows(key: Text, other: Text) { IsIndex(other) ==> IsIndex(key) && DigitsValue(key) < DigitsValue(other) }

  /** Indices come first and ascend. */
  ghost predicate Listed(keys: seq<Text>) { forall i, j :: 0 <= i < j < |keys| ==> Follows(keys[i], keys[j]) }

  /** The keys that are no indices. */
  function Others(keys: seq<Text>): seq<Text> {
    if keys == [] then [] else Others(keys[..|keys| - 1]) + (if IsIndex(keys[|keys| - 1]) then [] else [keys[|keys| - 1]])
  }

  lemma {:induction false} OthersAppend(a: seq<Text>, b: seq<Text>)
    ensures Others(a + b) == Others(a) + Others(b)
    decreases |b|
  {
    hide IsIndex;
    if b == [] {
      assert a + b == a;
    } else {
      var n := |b| - 1;
      assert (a + b)[..|a + b| - 1] == a + b[..n];
      OthersAppend(a, b[..n]);
    }
  }

  /** A new key goes in between: what comes before it and after it stays as it is. */
  lemma {:induction false} InsertSplits<T>(pairs: seq<(Text, T)>, key: Text, x: T) returns (k: nat)
    ensures k <= |pairs| && Insert(pairs, key, x) == pairs[..k] + [(key, x)] + pairs[k..]
    ensures k < |pairs| ==> Precedes(key, pairs[k].0)
    ensures forall i :: 0 <= i < k ==> !Precedes(key, pairs[i].0)
  {
    hide Precedes;
    if pairs == [] || Precedes(key, pairs[0].0) {
      k := 0;
    } else {
      var j := InsertSplits(pairs[1..], key, x);
      k := j + 1;
      assert pairs[..k] == [pairs[0]] + pairs[1..][..j] && pairs[k..] == pairs[1..][j..];
    }
  }

  lemma InsertLists<T>(pairs: seq<(Text, T)>, key: Text, x: T)
    requires Listed(Firsts(pairs)) && key !in Firsts(pairs)
    ensures Listed(Firsts(Insert(pairs, key, x))) && Others(Firsts(Insert(pairs, key, x))) == Others(Firsts(pairs) + [key])
  {
    hide IsIndex, Insert, Follows, Precedes, Listed, Others;
    var k := InsertSplits(pairs, key, x);
    var keys := Firsts(pairs);
    assert Firsts(Insert(pairs, key, x)) == keys[..k] + [key] + keys[k..];
    assert keys == keys[..k] + keys[k..];
    forall i | 0 <= i < k ensures Follows(keys[i], key) { NotBefore(key, keys[i]); }
    if k < |keys| { BeforeAll(key, keys, k); OthersAround(keys[..k], key, keys[k..]); } else { OthersAtEnd(keys, key); }
    ListedInThree(keys[..k], key, keys[k..]);
  }

  lemma NotBefore(key: Text, other: Text)
    requires !Precedes(key, other) && key != other
    ensures Follows(other, key)
  {
    if IsIndex(key) && IsIndex(other) { IndicesDiffer(key, other); }
  }

  lemma BeforeAll(key: Text, keys: seq<Text>, k: nat)
    requires Listed(keys) && k < |keys| && Precedes(key, keys[k])
    ensures IsIndex(key) && forall i :: k <= i < |keys| ==> Follows(key, keys[i])
  {
    forall i | k <= i < |keys| ensures Follows(key, keys[i]) {
      assert i > k ==> Follows(keys[k], keys[i]);
    }
  }

  lemma OthersAround(before: seq<Text>, key: Text, after: seq<Text>)
    requires IsIndex(key)
    ensures Others(before + [key] + after) == Others(before + after + [key])
  {
    hide Others;
    NoOthers(key);
    OthersAppend(before + [key], after);
    OthersAppend(before, [key]);
    OthersAppend(before, after);
    OthersAppend(before + after, [key]);
  }

  lemma OthersAtEnd(keys: seq<Text>, key: Text)
    ensures keys[..|keys|] + [key] + keys[|keys|..] == keys + [key]
  {
  }

  lemma NoOthers(key: Text)
    requires IsIndex(key)
    ensures Others([key]) == []
  {
    hide IsIndex;
    assert [key][..0] == [];
  }

  lemma IndicesDiffer(a: Text, b: Text)
    requires IsIndex(a) && IsIndex(b) && a != b
    ensures DigitsValue(a) != DigitsValue(b)
  {
    DigitsAreNumeral(a);
    DigitsAreNumeral(b);
  }

  lemma ListedInThree(before: seq<Text>, key: Text, after: seq<Text>)
    requires Listed(before + after)
    requires forall i :: 0 <= i < |before| ==> Follows(before[i], key)
    requires forall i :: 0 <= i < |after| ==> Follows(key, after[i])
    ensures Listed(before + [key] + after)
  {
    hide Follows;
    var all, rest, n := before + [key] + after, before + after, |before|;
    forall i, j | 0 <= i < j < |all| ensures Follows(all[i], all[j]) {
      var x, y := if i < n then i else i - 1, if j < n then j else j - 1;
      assert i != n ==> all[i] == rest[x];
      assert j != n ==> all[j] == rest[y];
      assert j > n ==> all[j] == after[j - n - 1];
      assert i < n ==> all[i] == before[i];
    }
  }

  /**
   * Creating distinct keys one after the other leaves the indices first and ascending, and the
   * others in the order they were created.
   */
  lemma {:induction false} ArrangedIsListed<T>(keys: seq<Text>, xs: seq<T>)
    requires |xs| <= |keys| && forall i, j :: 0 <= i < j < |keys| ==> keys[i] != keys[j]
    ensures Listed(Firsts(Arranged(keys, xs))) && Others(Firsts(Arranged(keys, xs))) == Others(keys[..|xs|])
    decreases |xs|
  {
    hide Listed, IsIndex, Insert, Others, Follows;
    if xs == [] {
      NothingListed();
      assert Firsts(Arranged(keys, xs)) == [] && keys[..0] == [];
    } else {
      var n := |xs| - 1;
      var before := Arranged(keys, xs[..n]);
      ArrangedIsListed(keys, xs[..n]);
      ArrangedKeys(keys, xs[..n]);
      forall i | 0 <= i < |before| ensures before[i].0 != keys[n] { assert before[i] in before; }
      InsertLists(before, keys[n], xs[n]);
      assert keys[..n] + [keys[n]] == keys[..|xs|];
      OthersAppend(Firsts(before), [keys[n]]);
      OthersAppend(keys[..n], [keys[n]]);
    }
  }

  /** Every key has its value. */
  lemma {:induction false} ArrangedHolds<T>(keys: seq<Text>, xs: seq<T>)
    requires |xs| <= |keys|
    ensures forall i :: 0 <= i < |xs| ==> (keys[i], xs[i]) in Arranged(keys, xs)
    decreases |xs|
  {
    hide Insert;
    if xs != [] {
      var n := |xs| - 1;
      ArrangedHolds(keys, xs[..n]);
      InsertHolds(Arranged(keys, xs[..n]), keys[n], xs[n]);
      forall i | 0 <= i < |xs| ensures (keys[i], xs[i]) in Arranged(keys, xs) {
        if i < n { assert xs[..n][i] == xs[i]; }
      }
    }
  }

  lemma InsertHolds<T>(pairs: seq<(Text, T)>, key: Text, x: T)
    ensures (key, x) in Insert(pairs, key, x) && forall p :: p in pairs ==> p in Insert(pairs, key, x)
  {
    hide Insert, Precedes;
    var k := InsertSplits(pairs, key, x);
    assert pairs == pairs[..k] + pairs[k..];
    assert (key, x) in pairs[..k] + [(key, x)];
  }

  lemma NothingListed()
    ensures Listed([])
  {
  }

  // ------------------------------------------------------------ keys already in order

  /** No key would move: as reflection lists the keys of an object. */
  predicate InOwnOrder(keys: seq<Text>) {
    forall i, j :: 0 <= i < j < |keys| ==> !Precedes(keys[j], keys[i])
  }

  lemma {:induction false} InsertLast<T>(pairs: seq<(Text, T)>, key: Text, x: T)
    requires forall p :: p in pairs ==> !Precedes(key, p.0)
    ensures Insert(pairs, key, x) == pairs + [(key, x)]
  {
    if pairs != [] {
      assert pairs[0] in pairs;
      InsertLast(pairs[1..], key, x);
    }
  }

  /** Creating keys in their own order keeps that order. */
  lemma {:induction false} ArrangedInOrder<T>(keys: seq<Text>, xs: seq<T>)
    requires |xs| <= |keys| && InOwnOrder(keys)
    ensures Firsts(Arranged(keys, xs)) == keys[..|xs|] && Seconds(Arranged(keys, xs)) == xs
    decreases |xs|
  {
    hide Precedes, Insert, Firsts, Seconds;
    if xs != [] {
      var n := |xs| - 1;
      var before := Arranged(keys, xs[..n]);
      ArrangedInOrder(keys, xs[..n]);
      forall p | p in before ensures !Precedes(keys[n], p.0) {
        var i :| 0 <= i < |before| && before[i] == p;
        assert Firsts(before)[i] == keys[i];
      }
      InsertLast(before, keys[n], xs[n]);
      PairsSnoc(before, keys[n], xs[n]);
      assert keys[..n] + [keys[n]] == keys[..|xs|] && xs[..n] + [xs[n]] == xs;
    }
  }

  lemma PairsSnoc<T>(pairs: seq<(Text, T)>, key: Text, x: T)
    ensures Firsts(pairs + [(key, x)]) == Firsts(pairs) + [key]
    ensures Seconds(pairs + [(key, x)]) == Seconds(pairs) + [x]
  {
  }

  // ------------------------------------------------------------------ ordered trees

  /** The tree with the keys of every object in their own order. */
  function Ordered(t: Tree): Tree
    decreases t
  {
    match t
    case Leaf(_) => t
    case Branch(marker, children) =>
      var kids := OrderedAll(children);
      if marker.ObjectMarker? && |marker.keys| == |kids| then
        var pairs := Arranged(marker.keys, kids);
        Branch(ObjectMarker(Firsts(pairs)), Seconds(pairs))
      else Branch(marker, kids)
  }

  function OrderedAll(ts: seq<Tree>): (r: seq<Tree>)
    ensures |r| == |ts| && forall i :: 0 <= i < |ts| ==> r[i] == Ordered(ts[i])
    decreases ts
  {
    if ts == [] then [] else [Ordered(ts[0])] + OrderedAll(ts[1..])
  }

  ghost predicate OrderedAlready(t: Tree)
    decreases t
  {
    t.Branch? ==>
      && (t.marker.ObjectMarker? ==> InOwnOrder(t.marker.keys))
      && forall c :: c in t.children ==> OrderedAlready(c)
  }

  lemma {:induction false} OrderedIsIdentity(t: Tree)
    requires OrderedAlready(t)
    ensures Ordered(t) == t
    decreases t
  {
    if t.Branch? {
      forall i | 0 <= i < |t.children| ensures Ordered(t.children[i]) == t.children[i] {
        assert t.children[i] in t.children;
        OrderedIsIdentity(t.children[i]);
      }
      assert OrderedAll(t.children) == t.children;
      if t.marker.ObjectMarker? && |t.marker.keys| == |t.children| {
        ArrangedInOrder(t.marker.keys, t.children);
        assert t.marker.keys[..|t.children|] == t.marker.keys;
      }
    }
  }
}
