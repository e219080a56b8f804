/**
 * The values a program exchanges with its host: JavaScript values over a heap of objects that
 * may share and cycle, the trees they unfold to, and the flat pre-order token stream.
 */
module PtcValue {
  import opened Prelude
  import opened JsonText

  const MAX_SAFE_INTEGER: nat := 0x1F_FFFF_FFFF_FFFF

  /**
   * A JavaScript number: a safe integer other than negative zero, another finite number named
   * by its canonical spelling, negative zero, or NaN and the infinities.
   */
  datatype Number = Integer(value: int) | OtherFinite(spelling: seq<Byte>) | NegativeZero | NotFinite

  datatype Scalar = Null | Bool(b: bool) | Str(text: Text) | Num(number: Number)

  /** The scalars JSON carries without loss. */
  predicate Lossless(s: Scalar) { s.Num? ==> s.number.Integer? || s.number.OtherFinite? }

  type Ref = nat

  /** `Exotic` is a value that is neither a scalar nor an object: undefined, a function, ... */
  datatype Value = Plain(s: Scalar) | Object(r: Ref) | Exotic

  datatype Key = Name(text: Text) | Symbol(id: nat)

  datatype Property = Property(key: Key, enumerable: bool, value: Value)

  /**
   * What reflection shows of one object: whether its prototype is the ordinary one, and its
   * own properties. An array's own keys are its present indices, its length, and `extras` more.
   */
  datatype Node =
    | ArrayNode(plain: bool, length: nat, elements: map<nat, Value>, extras: nat)
    | ObjectNode(plain: bool, properties: seq<Property>)

  type Heap = map<Ref, Node>

  datatype Token = Atom(s: Scalar) | ArrayMarker(length: nat) | ObjectMarker(keys: seq<Text>)

  datatype Tree = Leaf(s: Scalar) | Branch(marker: Token, children: seq<Tree>)

  function Arity(t: Token): nat {
    match t
    case Atom(_) => 0
    case ArrayMarker(length) => length
    case ObjectMarker(keys) => |keys|
  }

  // --------------------------------------------------------- the admissible containers

  function Elements(node: Node): (r: seq<Value>)
    requires node.ArrayNode? && forall i :: 0 <= i < node.length ==> i in node.elements
    ensures |r| == node.length && forall i :: 0 <= i < |r| ==> r[i] == node.elements[i]
  {
    seq(node.length, i requires 0 <= i < node.length => node.elements[i])
  }

  function Values(properties: seq<Property>): (r: seq<Value>)
    ensures |r| == |properties| && forall i :: 0 <= i < |r| ==> r[i] == properties[i].value
  {
    seq(|properties|, i requires 0 <= i < |properties| => properties[i].value)
  }

  function Names(properties: seq<Property>): (r: seq<Text>)
    requires forall p :: p in properties ==> p.key.Name?
    ensures |r| == |properties| && forall i :: 0 <= i < |r| ==> r[i] == properties[i].key.text
  {
    seq(|properties|, i requires 0 <= i < |properties| => properties[i].key.text)
  }

  /** The checks a container passes before it crosses. */
  predicate Admissible(node: Node) {
    match node
    case ArrayNode(plain, length, elements, extras) =>
      plain && |elements| + extras == length && forall i :: 0 <= i < length ==> i in elements
    case ObjectNode(plain, properties) =>
      plain && forall p :: p in properties ==> p.key.Name? && p.enumerable
  }

  /** An array crosses exactly when its own keys are its indices and its length. */
  lemma AdmissibleArrayIsDense(node: Node)
    requires node.ArrayNode?
    ensures Admissible(node) <==>
      node.plain && node.extras == 0 && node.elements.Keys == Indices(node.length)
  {
    assert |node.elements| == |node.elements.Keys|;
    if Admissible(node) {
      assert Indices(node.length) <= node.elements.Keys;
      SubsetOfEqualSize(Indices(node.length), node.elements.Keys);
    }
  }

  /** The names enumeration shows (EnumerableOwnProperties, section 7.3.23 of ECMA-262). */
  function Shown(properties: seq<Property>): (r: seq<Text>)
    ensures |r| <= |properties|
  {
    if properties == [] then []
    else (if properties[0].key.Name? && properties[0].enumerable then [properties[0].key.text] else []) + Shown(properties[1..])
  }

  /** An object crosses exactly when enumeration shows all of its own keys. */
  lemma AdmissibleObjectShowsAll(node: Node)
    requires node.ObjectNode?
    ensures Admissible(node) <==> node.plain && |Shown(node.properties)| == |node.properties|
    ensures Admissible(node) ==> Names(node.properties) == Shown(node.properties)
  {
    AllShown(node.properties);
  }

  lemma {:induction false} AllShown(properties: seq<Property>)
    ensures |Shown(properties)| == |properties| <==> forall i :: 0 <= i < |properties| ==> properties[i].key.Name? && properties[i].enumerable
    ensures |Shown(properties)| == |properties| ==>
      forall i :: 0 <= i < |properties| ==> properties[i].key.Name? && Shown(properties)[i] == properties[i].key.text
  {
    if properties != [] {
      var rest := properties[1..];
      AllShown(rest);
      assert forall i :: 0 < i < |properties| ==> properties[i] == rest[i - 1];
      assert forall i :: 0 <= i < |rest| ==> rest[i] == properties[i + 1];
    }
  }

  function Indices(n: nat): (r: set<nat>)
    ensures |r| == n && forall i :: i in r <==> 0 <= i < n
  {
    if n == 0 then {} else Indices(n - 1) + {n - 1}
  }

  lemma SubsetOfEqualSize(a: set<nat>, b: set<nat>)
    requires a <= b
    ensures |a| <= |b| && (|a| == |b| ==> a == b)
  {
    assert b == a + (b - a);
  }

  function MarkerOf(node: Node): Token
    requires Admissible(node)
  {
    match node
    case ArrayNode(_, length, _, _) => ArrayMarker(length)
    case ObjectNode(_, properties) => ObjectMarker(Names(properties))
  }

  function Kids(node: Node): (r: seq<Value>)
    requires Admissible(node)
    ensures |r| == Arity(MarkerOf(node))
  {
    if node.ArrayNode? then Elements(node) else Values(node.properties)
  }

  // -------------------------------------------------------------------- unfolding

  /**
   * The tree a value unfolds to, or nothing when an inadmissible value or a cycle is reached;
   * `active` holds the objects the walk is inside of.
   */
  function Unfold(h: Heap, v: Value, active: set<Ref>): Option<Tree>
    decreases |h.Keys - active|, 1, 0
  {
    match v
    case Exotic => None
    case Plain(s) => if Lossless(s) then Some(Leaf(s)) else None
    case Object(r) =>
      if r !in h || r in active || !Admissible(h[r]) then None
      else
        EnteringShrinks(h, active, r);
        match UnfoldAll(h, Kids(h[r]), active + {r})
        case None => None
        case Some(children) => Some(Branch(MarkerOf(h[r]), children))
  }

  function UnfoldAll(h: Heap, vs: seq<Value>, active: set<Ref>): Option<seq<Tree>>
    decreases |h.Keys - active|, 2, |vs|
  {
    if vs == [] then Some([])
    else
      match Unfold(h, vs[0], active)
      case None => None
      case Some(t) =>
        match UnfoldAll(h, vs[1..], active)
        case None => None
        case Some(ts) => Some([t] + ts)
  }

  lemma EnteringShrinks(h: Heap, active: set<Ref>, r: Ref)
    requires r in h && r !in active
    ensures |h.Keys - (active + {r})| < |h.Keys - active|
  {
    assert h.Keys - (active + {r}) == (h.Keys - active) - {r};
  }

  function Preorder(t: Tree): seq<Token> {
    match t
    case Leaf(s) => [Atom(s)]
    case Branch(marker, children) => [marker] + PreorderAll(children)
  }

  function PreorderAll(ts: seq<Tree>): seq<Token> {
    if ts == [] then [] else Preorder(ts[0]) + PreorderAll(ts[1..])
  }

  lemma {:induction false} PreorderAllAppend(a: seq<Tree>, b: seq<Tree>)
    ensures PreorderAll(a + b) == PreorderAll(a) + PreorderAll(b)
  {
    if a == [] {
      assert a + b == b;
    } else {
      assert (a + b)[1..] == a[1..] + b;
      PreorderAllAppend(a[1..], b);
    }
  }

  lemma PreorderAllSnoc(a: seq<Tree>, t: Tree)
    ensures PreorderAll(a + [t]) == PreorderAll(a) + Preorder(t)
  {
    PreorderAllAppend(a, [t]);
    assert [t][1..] == [];
  }

  /** The scalars that cross: all but NaN, the infinities and negative zero, which JSON would change. */
  lemma ScalarsThatCross(h: Heap, s: Scalar)
    ensures Unfold(h, Plain(s), {}).Some? <==> s != Num(NotFinite) && s != Num(NegativeZero)
    ensures Unfold(h, Plain(s), {}).Some? ==> Unfold(h, Plain(s), {}) == Some(Leaf(s))
  {
  }

  // ---------------------------------------------------- what makes unfolding fail

  /** Following these child positions from `v` ends at an inadmissible value or closes a cycle. */
  ghost predicate Offends(h: Heap, v: Value, path: seq<nat>, active: set<Ref>)
    decreases |path|
  {
    match v
    case Exotic => path == []
    case Plain(s) => path == [] && !Lossless(s)
    case Object(r) =>
      if r !in h || r in active || !Admissible(h[r]) then path == []
      else
        && path != [] && path[0] < |Kids(h[r])|
        && Offends(h, Kids(h[r])[path[0]], path[1..], active + {r})
  }

  ghost predicate OffenceReachable(h: Heap, v: Value) {
    exists path: seq<nat> :: Offends(h, v, path, {})
  }

  /** A value fails to unfold exactly when something inadmissible or a cycle is reachable. */
  lemma UnfoldFailsOnOffence(h: Heap, v: Value)
    ensures Unfold(h, v, {}).None? <==> OffenceReachable(h, v)
  {
    if Unfold(h, v, {}).None? {
      var path := FindOffence(h, v, {});
      assert Offends(h, v, path, {});
    }
    if OffenceReachable(h, v) {
      var path: seq<nat> :| Offends(h, v, path, {});
      OffenceFails(h, v, path, {});
    }
  }

  lemma {:induction false} FindOffence(h: Heap, v: Value, active: set<Ref>) returns (path: seq<nat>)
    requires Unfold(h, v, active).None?
    ensures Offends(h, v, path, active)
    decreases |h.Keys - active|, 1, 0
  {
    path := [];
    if v.Object? && v.r in h && v.r !in active && Admissible(h[v.r]) {
      EnteringShrinks(h, active, v.r);
      var k, rest := FindOffenceAmong(h, Kids(h[v.r]), active + {v.r});
      path := [k] + rest;
      assert path[1..] == rest;
    }
  }

  lemma {:induction false} FindOffenceAmong(h: Heap, vs: seq<Value>, active: set<Ref>) returns (k: nat, path: seq<nat>)
    requires UnfoldAll(h, vs, active).None?
    ensures k < |vs| && Offends(h, vs[k], path, active)
    decreases |h.Keys - active|, 2, |vs|
  {
    if Unfold(h, vs[0], active).None? {
      k := 0;
      path := FindOffence(h, vs[0], active);
    } else {
      var j, p := FindOffenceAmong(h, vs[1..], active);
      k, path := j + 1, p;
    }
  }

  lemma {:induction false} OffenceFails(h: Heap, v: Value, path: seq<nat>, active: set<Ref>)
    requires Offends(h, v, path, active)
    ensures Unfold(h, v, active).None?
    decreases |path|
  {
    if v.Object? && v.r in h && v.r !in active && Admissible(h[v.r]) {
      var kids := Kids(h[v.r]);
      OffenceFails(h, kids[path[0]], path[1..], active + {v.r});
      OneFailureFailsAll(h, kids, path[0], active + {v.r});
    }
  }

  lemma {:induction false} OneFailureFailsAll(h: Heap, vs: seq<Value>, k: nat, active: set<Ref>)
    requires k < |vs| && Unfold(h, vs[k], active).None?
    ensures UnfoldAll(h, vs, active).None?
    decreases |vs|
  {
    if k > 0 {
      OneFailureFailsAll(h, vs[1..], k - 1, active);
    }
  }
}
