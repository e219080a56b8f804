/** A value sent from one side to the other: flattened, copied as plain data, and rebuilt. */
module PtcTransfer {
  import opened Prelude
  import opened JsonText
  import opened PtcValue
  import opened PtcForest
  import opened PtcKeyOrder
  import opened PtcMarker
  import PtcFlatten
  import PtcUnflatten

  /** What ECMA-262 promises of every object: bounded arrays, distinct keys in their own order. */
  ghost predicate WellFormed(h: Heap) {
    forall r :: r in h ==> WellFormedNode(h[r])
  }

  ghost predicate WellFormedNode(node: Node) {
    match node
    case ArrayNode(_, length, _, _) => length < 0x1_0000_0000
    case ObjectNode(_, properties) =>
      (forall p :: p in properties ==> p.key.Name?) ==> Distinct(Names(properties)) && InOwnOrder(Names(properties))
  }

  /** A tree flattening can emit. */
  ghost predicate Emittable(t: Tree) {
    Proper(t) && OrderedAlready(t) && forall x :: x in Preorder(t) ==> Countable(x)
  }

  ghost predicate AllEmittable(ts: seq<Tree>) {
    (forall t :: t in ts ==> Emittable(t)) && forall x :: x in PreorderAll(ts) ==> Countable(x)
  }

  lemma {:induction false} UnfoldedIsEmittable(h: Heap, v: Value, active: set<Ref>)
    requires WellFormed(h) && Unfold(h, v, active).Some?
    ensures Emittable(Unfold(h, v, active).value)
    decreases |h.Keys - active|, 1, 0
  {
    hide Kids, Names, InOwnOrder, Distinct;
    if v.Object? {
      EnteringShrinks(h, active, v.r);
      UnfoldedAreEmittable(h, Kids(h[v.r]), active + {v.r});
      UnfoldKeepsCount(h, Kids(h[v.r]), active + {v.r});
      BranchIsEmittable(h[v.r], UnfoldAll(h, Kids(h[v.r]), active + {v.r}).value);
    }
  }

  lemma BranchIsEmittable(node: Node, children: seq<Tree>)
    requires WellFormedNode(node) && Admissible(node) && AllEmittable(children) && |children| == Arity(MarkerOf(node))
    ensures Emittable(Branch(MarkerOf(node), children))
  {
  }

  lemma {:induction false} UnfoldKeepsCount(h: Heap, vs: seq<Value>, active: set<Ref>)
    requires UnfoldAll(h, vs, active).Some?
    ensures |UnfoldAll(h, vs, active).value| == |vs|
    decreases |vs|
  {
    hide Unfold;
    if vs != [] { UnfoldKeepsCount(h, vs[1..], active); }
  }

  lemma {:induction false} UnfoldedAreEmittable(h: Heap, vs: seq<Value>, active: set<Ref>)
    requires WellFormed(h) && UnfoldAll(h, vs, active).Some?
    ensures AllEmittable(UnfoldAll(h, vs, active).value)
    decreases |h.Keys - active|, 2, |vs|
  {
    hide Unfold, Proper, OrderedAlready, Countable, WellFormed;
    if vs != [] {
      UnfoldedIsEmittable(h, vs[0], active);
      UnfoldedAreEmittable(h, vs[1..], active);
      var t, ts := Unfold(h, vs[0], active).value, UnfoldAll(h, vs[1..], active).value;
      PreorderAllCons(t, ts);
    }
  }

  // ------------------------------------------------------------------ the copied message

  ghost predicate Extends(h: Heap, g: Heap) { forall r :: r in h ==> r in g && g[r] == h[r] }

  lemma CarriesFrame(h: Heap, g: Heap, input: seq<Value>, wire: seq<Token>)
    requires Carries(h, input, wire) && Extends(h, g)
    ensures Carries(g, input, wire)
  {
  }

  /** The token stream as the receiver gets it: plain arrays, objects and scalars. */
  method Copied(wire: seq<Token>) returns (source: Heap, input: seq<Value>)
    ensures Carries(source, input, wire)
  {
    hide CarriesToken;
    source, input := map[], [];
    var next := 0;
    for i := 0 to |wire|
      invariant Carries(source, input, wire[..i])
      invariant forall r :: r in source ==> r < next
    {
      ghost var before := source;
      var v;
      source, v, next := CopiedToken(source, next, wire[i]);
      CarriesFrame(before, source, input, wire[..i]);
      input := input + [v];
    }
    assert wire[..|wire|] == wire;
  }

  method CopiedToken(h: Heap, next: nat, token: Token) returns (source: Heap, v: Value, after: nat)
    requires forall r :: r in h ==> r < next
    ensures Extends(h, source) && CarriesToken(source, v, token)
    ensures forall r :: r in source ==> r < after
  {
    hide Indices;
    match token {
      case Atom(s) => return h, Plain(s), next;
      case ArrayMarker(length) =>
        var node := ObjectNode(true, [Property(Name(KIND), true, Plain(Str(ARRAY))), Property(Name(LENGTH), true, Plain(Num(Integer(length))))]);
        return h[next := node], Object(next), next + 1;
      case ObjectMarker(keys) =>
        var list := ArrayNode(true, |keys|, map i: nat | i in Indices(|keys|) :: Plain(Str(keys[i])), 0);
        var node := ObjectNode(true, [Property(Name(KIND), true, Plain(Str(OBJECT))), Property(Name(KEYS), true, Object(next))]);
        source, v, after := h[next := list][next + 1 := node], Object(next + 1), next + 2;
        KeysAreCarried(source, next, list, node, keys);
    }
  }

  lemma KeysAreCarried(h: Heap, next: nat, list: Node, node: Node, keys: seq<Text>)
    requires list == ArrayNode(true, |keys|, map i: nat | i in Indices(|keys|) :: Plain(Str(keys[i])), 0)
    requires node == ObjectNode(true, [Property(Name(KIND), true, Plain(Str(OBJECT))), Property(Name(KEYS), true, Object(next))])
    requires next in h && h[next] == list && next + 1 in h && h[next + 1] == node
    ensures CarriesToken(h, Object(next + 1), ObjectMarker(keys))
  {
  }

  /**
   * Sending a value: it arrives exactly when it is lossless, and then what arrives unfolds to
   * the same tree.
   */
  method Transfer(h: Heap, root: Value) returns (back: Option<(Heap, Value)>)
    requires WellFormed(h)
    ensures match Unfold(h, root, {})
            case None => back.None?
            case Some(t) => back.Some? && Unfold(back.value.0, back.value.1, {}) == Some(t)
  {
    hide Unfold, Preorder, Carries, DecodeTokens, Ordered, OrderedAlready, Proper;
    var wire := PtcFlatten.Flatten(h, root);
    if wire.None? {
      return None;
    }
    ghost var t := Unfold(h, root, {}).value;
    UnfoldedIsEmittable(h, root, {});
    var source, input := Copied(wire.value);
    ProperTokens(t);
    CarriedDecodes(source, input, wire.value);
    PtcUnflatten.StreamTreeSpells(source, input, t);
    OrderedIsIdentity(t);
    back := PtcUnflatten.Unflatten(source, input);
  }

  lemma {:induction false} ProperTokens(t: Tree)
    requires Proper(t)
    ensures forall x :: x in Preorder(t) ==> ValidToken(x)
    decreases t
  {
    if t.Branch? {
      forall c | c in t.children ensures forall x :: x in Preorder(c) ==> ValidToken(x) { ProperTokens(c); }
      AllTokens(t.children);
    }
  }

  lemma {:induction false} AllTokens(ts: seq<Tree>)
    requires forall c :: c in ts ==> forall x :: x in Preorder(c) ==> ValidToken(x)
    ensures forall x :: x in PreorderAll(ts) ==> ValidToken(x)
  {
    hide Preorder, ValidToken;
    if ts != [] {
      assert ts[0] in ts;
      AllTokens(ts[1..]);
    }
  }

  /** Sending back what was received emits the received stream, when its keys were in order. */
  method Echo(source: Heap, input: seq<Value>) returns (wire: Option<seq<Token>>)
    ensures match PtcUnflatten.StreamTree(source, input)
            case None => wire.None?
            case Some(t) => wire == Some(Preorder(Ordered(t)))
                            && (OrderedAlready(t) ==> wire == DecodeTokens(source, input))
  {
    hide Unfold, Preorder, DecodeTokens, Ordered, OrderedAlready, Proper;
    var rebuilt := PtcUnflatten.Unflatten(source, input);
    if rebuilt.None? {
      return None;
    }
    ghost var t := PtcUnflatten.StreamTree(source, input).value;
    PtcUnflatten.StreamTreeSpells(source, input, t);
    if OrderedAlready(t) { OrderedIsIdentity(t); }
    wire := PtcFlatten.Flatten(rebuilt.value.0, rebuilt.value.1);
  }
}
