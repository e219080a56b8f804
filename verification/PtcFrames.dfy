/**
 * A value under construction: containers are attached to their parents while still empty and
 * filled in place, so what is finished and what is still open share one heap.
 */
module PtcFrames {
  import opened Prelude
  import opened JsonText
  import opened PtcValue
  import opened PtcForest
  import opened PtcKeyOrder

  // ------------------------------------------------------------- containers and children

  /** A container holding its first few children. */
  function NodeOf(marker: Token, vals: seq<Value>): Node
    requires !marker.Atom? && |vals| <= Arity(marker)
  {
    if marker.ArrayMarker? then
      ArrayNode(true, |vals|, map i: nat | i in Indices(|vals|) :: vals[i], 0)
    else
      ObjectNode(true, Properties(Arranged(marker.keys, vals)))
  }

  function Properties(pairs: seq<(Text, Value)>): (r: seq<Property>)
    ensures |r| == |pairs| && forall i :: 0 <= i < |r| ==> r[i] == Property(Name(pairs[i].0), true, pairs[i].1)
  {
    seq(|pairs|, i requires 0 <= i < |pairs| => Property(Name(pairs[i].0), true, pairs[i].1))
  }

  /** A container with all its children can cross; an object shows them in its own key order. */
  lemma FullNode(marker: Token, vals: seq<Value>)
    requires !marker.Atom? && |vals| == Arity(marker)
    ensures var node := NodeOf(marker, vals);
      && Admissible(node)
      && (marker.ArrayMarker? ==> MarkerOf(node) == marker && Kids(node) == vals)
      && (marker.ObjectMarker? ==>
            var pairs := Arranged(marker.keys, vals);
            MarkerOf(node) == ObjectMarker(Firsts(pairs)) && Kids(node) == Seconds(pairs))
  {
    var node := NodeOf(marker, vals);
    if marker.ArrayMarker? {
      assert node.elements.Keys == Indices(|vals|);
      assert |node.elements| == |node.elements.Keys|;
    } else {
      var pairs := Arranged(marker.keys, vals);
      assert Names(node.properties) == Firsts(pairs) && Values(node.properties) == Seconds(pairs);
    }
  }

  /** `push` on an array. */
  function Push(node: Node, v: Value): Node
    requires node.ArrayNode?
  {
    node.(length := node.length + 1, elements := node.elements[node.length := v])
  }

  /** `defineProperty` with an enumerable data property: an existing key keeps its place. */
  function Define(properties: seq<Property>, key: Text, v: Value): seq<Property> {
    if exists p :: p in properties && p.key == Name(key) then Redefine(properties, key, v)
    else Create(properties, key, v)
  }

  function Redefine(properties: seq<Property>, key: Text, v: Value): seq<Property> {
    if properties == [] then []
    else if properties[0].key == Name(key) then [Property(Name(key), true, v)] + properties[1..]
    else [properties[0]] + Redefine(properties[1..], key, v)
  }

  function Create(properties: seq<Property>, key: Text, v: Value): seq<Property> {
    if properties == [] then [Property(Name(key), true, v)]
    else if properties[0].key.Symbol? || Precedes(key, properties[0].key.text) then
      [Property(Name(key), true, v)] + properties
    else [properties[0]] + Create(properties[1..], key, v)
  }

  /** A new key goes where own-key order puts it among the names, before any symbols. */
  lemma {:induction false} CreateInserts(pairs: seq<(Text, Value)>, symbols: seq<Property>, key: Text, v: Value)
    requires forall i :: 0 <= i < |symbols| ==> symbols[i].key.Symbol?
    ensures Create(Properties(pairs) + symbols, key, v) == Properties(Insert(pairs, key, v)) + symbols
    decreases |pairs|
  {
    hide Precedes;
    var created, one := Properties(pairs) + symbols, Property(Name(key), true, v);
    if pairs != [] && !Precedes(key, pairs[0].0) {
      CreateInserts(pairs[1..], symbols, key, v);
      assert created[1..] == Properties(pairs[1..]) + symbols;
      assert [created[0]] + Properties(Insert(pairs[1..], key, v)) == Properties([pairs[0]] + Insert(pairs[1..], key, v));
      assert [created[0]] + (Properties(Insert(pairs[1..], key, v)) + symbols)
          == ([created[0]] + Properties(Insert(pairs[1..], key, v))) + symbols;
    } else {
      assert [one] + Properties(pairs) == Properties([(key, v)] + pairs);
      assert [one] + created == ([one] + Properties(pairs)) + symbols;
      if pairs == [] {
        assert created == symbols && Properties([(key, v)]) == [one];
      }
    }
  }

  /** Defining a key that is there keeps its place and every other property. */
  lemma {:induction false} RedefineReplaces(properties: seq<Property>, at: nat, key: Text, v: Value)
    requires at < |properties| && properties[at].key == Name(key) && forall i :: 0 <= i < at ==> properties[i].key != Name(key)
    ensures Define(properties, key, v) == properties[at := Property(Name(key), true, v)]
    decreases at
  {
    hide Create;
    assert properties[at] in properties;
    if at > 0 {
      RedefineReplaces(properties[1..], at - 1, key, v);
      assert properties[1..][at - 1] in properties[1..];
    }
  }

  /** Storing one child into a container. */
  function Stored(node: Node, marker: Token, index: nat, v: Value): Node
    requires !marker.Atom? && index < Arity(marker)
    requires node.ArrayNode? <==> marker.ArrayMarker?
  {
    if marker.ArrayMarker? then Push(node, v)
    else node.(properties := Define(node.properties, marker.keys[index], v))
  }

  lemma PushingExtends(n: nat, vals: seq<Value>, v: Value)
    requires |vals| < n
    ensures Push(NodeOf(ArrayMarker(n), vals), v) == NodeOf(ArrayMarker(n), vals + [v])
  {
  }

  lemma DefiningExtends(keys: seq<Text>, vals: seq<Value>, v: Value)
    requires |vals| < |keys| && Distinct(keys)
    ensures Define(NodeOf(ObjectMarker(keys), vals).properties, keys[|vals|], v) == NodeOf(ObjectMarker(keys), vals + [v]).properties
  {
    hide Create, Redefine, Insert;
    var pairs, n := Arranged(keys, vals), |vals|;
    var created := Properties(pairs);
    forall p | p in created ensures p.key != Name(keys[n]) {
      var i :| 0 <= i < |created| && created[i] == p;
      ArrangedKeys(keys, vals);
      assert pairs[i].0 in keys[..n];
    }
    CreateInserts(pairs, [], keys[n], v);
    assert created + [] == created;
    assert (vals + [v])[..n] == vals;
  }

  lemma StoringExtends(marker: Token, vals: seq<Value>, v: Value)
    requires !marker.Atom? && ValidToken(marker) && |vals| < Arity(marker)
    ensures Stored(NodeOf(marker, vals), marker, |vals|, v) == NodeOf(marker, vals + [v])
  {
    hide Define, Push, Distinct;
    if marker.ObjectMarker? {
      DefiningExtends(marker.keys, vals, v);
    } else {
      PushingExtends(marker.length, vals, v);
    }
  }

  // ------------------------------------------------------------------ finished values

  ghost predicate Holds(h: Heap, r: Ref, marker: Token, vals: seq<Value>) {
    r in h && !marker.Atom? && |vals| == Arity(marker) && h[r] == NodeOf(marker, vals)
  }

  /**
   * The value was built from this tree, and its objects lie between two references, each
   * below its children; so it has no cycle.
   */
  ghost predicate Represents(h: Heap, v: Value, t: Tree, lo: nat, hi: nat)
    decreases t
  {
    match t
    case Leaf(s) => v == Plain(s) && Lossless(s)
    case Branch(marker, children) =>
      && v.Object? && lo <= v.r < hi
      && exists vals :: Holds(h, v.r, marker, vals) && RepresentsAll(h, vals, children, v.r + 1, hi)
  }

  ghost predicate RepresentsAll(h: Heap, vs: seq<Value>, ts: seq<Tree>, lo: nat, hi: nat)
    decreases ts
  {
    |vs| == |ts| && forall i :: 0 <= i < |ts| ==> Represents(h, vs[i], ts[i], lo, hi)
  }

  /** A finished value unfolds to its tree with every object's keys in their own order. */
  lemma {:induction false} RepresentsUnfolds(h: Heap, v: Value, t: Tree, lo: nat, hi: nat, active: set<Ref>)
    requires Represents(h, v, t, lo, hi) && forall r :: r in active ==> r < lo
    ensures Unfold(h, v, active) == Some(Ordered(t))
    decreases t
  {
    hide Kids, MarkerOf, Admissible, NodeOf, UnfoldAll, Arranged;
    if t.Branch? {
      var vals :| Holds(h, v.r, t.marker, vals) && RepresentsAll(h, vals, t.children, v.r + 1, hi);
      var below := active + {v.r};
      forall i | 0 <= i < |vals| ensures Unfold(h, vals[i], below) == Some(OrderedAll(t.children)[i]) {
        RepresentsUnfolds(h, vals[i], t.children[i], v.r + 1, hi, below);
      }
      FullNode(t.marker, vals);
      if t.marker.ArrayMarker? {
        UnfoldEach(h, vals, OrderedAll(t.children), below);
      } else {
        var a, b := Arranged(t.marker.keys, vals), Arranged(t.marker.keys, OrderedAll(t.children));
        ArrangedMatch(h, below, t.marker.keys, vals, OrderedAll(t.children));
        UnfoldEach(h, Seconds(a), Seconds(b), below);
        assert Firsts(a) == Firsts(b);
      }
    }
  }

  lemma {:induction false} UnfoldEach(h: Heap, vs: seq<Value>, ts: seq<Tree>, active: set<Ref>)
    requires |vs| == |ts| && forall i :: 0 <= i < |vs| ==> Unfold(h, vs[i], active) == Some(ts[i])
    ensures UnfoldAll(h, vs, active) == Some(ts)
    decreases |ts|
  {
    hide Unfold;
    if ts != [] {
      UnfoldEach(h, vs[1..], ts[1..], active);
      assert [ts[0]] + ts[1..] == ts;
    }
  }

  /** The same keys, in the same order, and values that unfold to the trees. */
  ghost predicate Match(h: Heap, active: set<Ref>, a: seq<(Text, Value)>, b: seq<(Text, Tree)>) {
    |a| == |b| && forall i :: 0 <= i < |a| ==> a[i].0 == b[i].0 && Unfold(h, a[i].1, active) == Some(b[i].1)
  }

  lemma {:induction false} InsertMatch(h: Heap, active: set<Ref>, a: seq<(Text, Value)>, b: seq<(Text, Tree)>, key: Text, v: Value, t: Tree)
    requires Match(h, active, a, b) && Unfold(h, v, active) == Some(t)
    ensures Match(h, active, Insert(a, key, v), Insert(b, key, t))
    decreases |a|
  {
    hide Unfold, Precedes;
    if a != [] && !Precedes(key, a[0].0) {
      InsertMatch(h, active, a[1..], b[1..], key, v, t);
    }
  }

  lemma {:induction false} ArrangedMatch(h: Heap, active: set<Ref>, keys: seq<Text>, vs: seq<Value>, ts: seq<Tree>)
    requires |vs| == |ts| <= |keys| && forall i :: 0 <= i < |vs| ==> Unfold(h, vs[i], active) == Some(ts[i])
    ensures Match(h, active, Arranged(keys, vs), Arranged(keys, ts))
    decreases |vs|
  {
    hide Unfold, Insert;
    if vs != [] {
      var n := |vs| - 1;
      ArrangedMatch(h, active, keys, vs[..n], ts[..n]);
      InsertMatch(h, active, Arranged(keys, vs[..n]), Arranged(keys, ts[..n]), keys[n], vs[n], ts[n]);
    }
  }

  /** The two heaps have the same objects between two references. */
  ghost predicate Agree(h: Heap, g: Heap, lo: nat, hi: nat) {
    forall r: Ref :: lo <= r < hi ==> (r in h <==> r in g) && (r in h ==> h[r] == g[r])
  }

  lemma {:induction false} RepresentsFrame(h: Heap, g: Heap, v: Value, t: Tree, lo: nat, hi: nat, wider: nat)
    requires Represents(h, v, t, lo, hi) && Agree(h, g, lo, hi) && hi <= wider
    ensures Represents(g, v, t, lo, wider)
    decreases t
  {
    hide NodeOf;
    if t.Branch? {
      var vals :| Holds(h, v.r, t.marker, vals) && RepresentsAll(h, vals, t.children, v.r + 1, hi);
      RepresentsAllFrame(h, g, vals, t.children, v.r + 1, hi, wider);
      assert Holds(g, v.r, t.marker, vals);
    }
  }

  lemma {:induction false} RepresentsAllFrame(h: Heap, g: Heap, vs: seq<Value>, ts: seq<Tree>, lo: nat, hi: nat, wider: nat)
    requires RepresentsAll(h, vs, ts, lo, hi) && Agree(h, g, lo, hi) && hi <= wider
    ensures RepresentsAll(g, vs, ts, lo, wider)
    decreases ts, 0
  {
    forall i | 0 <= i < |ts| ensures Represents(g, vs[i], ts[i], lo, wider) {
      RepresentsFrame(h, g, vs[i], ts[i], lo, hi, wider);
    }
  }

  lemma RepresentsNarrows(h: Heap, v: Value, t: Tree, lo: nat, hi: nat, lower: nat)
    requires Represents(h, v, t, lo, hi) && lower <= lo
    ensures Represents(h, v, t, lower, hi)
  {
  }

  lemma RepresentsAllSnoc(h: Heap, vs: seq<Value>, ts: seq<Tree>, v: Value, t: Tree, lo: nat, hi: nat)
    requires RepresentsAll(h, vs, ts, lo, hi) && Represents(h, v, t, lo, hi)
    ensures RepresentsAll(h, vs + [v], ts + [t], lo, hi)
  {
  }

  // ------------------------------------------------------------------ the open containers

  /** An open container: its frame, its object, what it holds, and the finished children. */
  datatype Open = Open(id: nat, target: Ref, marker: Token, vals: seq<Value>, done: seq<Tree>)

  predicate Full(g: Open) { |g.vals| >= Arity(g.marker) }

  /**
   * One open container: finished children first, then the child that is open, if there is
   * one; the finished children were allocated after it and before `hi`.
   */
  ghost predicate OpenOk(h: Heap, g: Open, child: Option<Ref>, hi: nat) {
    && !g.marker.Atom? && ValidToken(g.marker) && |g.vals| <= Arity(g.marker) && Arity(g.marker) > 0
    && g.target < hi && g.target in h && h[g.target] == NodeOf(g.marker, g.vals)
    && AllProper(g.done)
    && |g.vals| == |g.done| + (if child.Some? then 1 else 0)
    && (child.Some? ==> g.vals[|g.done|] == Object(child.value))
    && RepresentsAll(h, g.vals[..|g.done|], g.done, g.target + 1, hi)
  }

  /** The open containers, outermost first: each holds the next one as its last child. */
  ghost predicate Built(h: Heap, gs: seq<Open>, child: Option<Ref>, hi: nat)
    decreases |gs|
  {
    gs != [] ==>
      var g := gs[|gs| - 1];
      OpenOk(h, g, child, hi) && Built(h, gs[..|gs| - 1], Some(g.target), g.target)
  }

  lemma {:induction false} BuiltFrame(h: Heap, g: Heap, gs: seq<Open>, child: Option<Ref>, hi: nat, wider: nat)
    requires Built(h, gs, child, hi) && Agree(h, g, 0, hi) && hi <= wider
    ensures Built(g, gs, child, wider)
    decreases |gs|
  {
    hide NodeOf, AllProper, ValidToken, RepresentsAll;
    if gs != [] {
      var top := gs[|gs| - 1];
      RepresentsAllFrame(h, g, top.vals[..|top.done|], top.done, top.target + 1, hi, wider);
      BuiltFrame(h, g, gs[..|gs| - 1], Some(top.target), top.target, top.target);
    }
  }

  /** The tokens the open containers and their finished children came from. */
  function Emitted(gs: seq<Open>): seq<Token>
    decreases |gs|
  {
    if gs == [] then []
    else
      var g := gs[|gs| - 1];
      Emitted(gs[..|gs| - 1]) + [g.marker] + PreorderAll(g.done)
  }

  /** How many children are still missing. */
  function Pending(gs: seq<Open>): int
    decreases |gs|
  {
    if gs == [] then 0
    else
      var g := gs[|gs| - 1];
      Pending(gs[..|gs| - 1]) + Arity(g.marker) - |g.vals|
  }

  lemma {:induction false} PendingIsNatural(h: Heap, gs: seq<Open>, child: Option<Ref>, hi: nat)
    requires Built(h, gs, child, hi)
    ensures Pending(gs) >= 0
    ensures gs != [] && !Full(gs[|gs| - 1]) ==> Pending(gs) > 0
    decreases |gs|
  {
    hide NodeOf, AllProper, ValidToken, RepresentsAll;
    if gs != [] {
      var top := gs[|gs| - 1];
      PendingIsNatural(h, gs[..|gs| - 1], Some(top.target), top.target);
    }
  }

  // ------------------------------------------------------------------------- one state

  /**
   * What the consumed tokens `w` have built: nothing yet, containers that are still open below
   * the root, or the whole `tree`.
   */
  ghost predicate Stands(h: Heap, next: nat, gs: seq<Open>, rooted: bool, root: Value, tree: Tree, w: seq<Token>) {
    && Built(h, gs, None, next)
    && Owed(w, 1).Some? && Owed(w, 1).value == Pending(gs) + (if rooted then 0 else 1)
    && (!rooted ==> gs == [] && w == [])
    && (rooted && gs != [] ==> root == Object(gs[0].target) && Emitted(gs) == w)
    && (rooted && gs == [] ==> Finished(h, next, root, tree, w))
  }

  ghost predicate Finished(h: Heap, next: nat, root: Value, tree: Tree, w: seq<Token>) {
    Represents(h, root, tree, 0, next) && Proper(tree) && Preorder(tree) == w
  }

  /** What one token brings: a whole tree, or a container that stays open. */
  datatype Item = Whole(t: Tree) | Opening(marker: Token)

  ghost predicate Brings(h: Heap, value: Value, item: Item, token: Token, next: nat, after: nat) {
    match item
    case Whole(t) => Represents(h, value, t, next, after) && Proper(t) && Preorder(t) == [token] && Arity(token) == 0
    case Opening(m) =>
      && m == token && !m.Atom? && ValidToken(m) && Arity(m) > 0
      && value == Object(next) && after == next + 1 && next in h && h[next] == NodeOf(m, [])
  }

  /** The innermost open container with one more child. */
  function Placed(g: Open, value: Value, item: Item): Open {
    g.(vals := g.vals + [value], done := if item.Whole? then g.done + [item.t] else g.done)
  }

  function Attached(gs: seq<Open>, value: Value, item: Item): seq<Open> {
    if gs == [] then [] else gs[..|gs| - 1] + [Placed(gs[|gs| - 1], value, item)]
  }

  function Opened(gs: seq<Open>, value: Value, item: Item, id: nat): seq<Open> {
    if item.Opening? && value.Object? then gs + [Open(id, value.r, item.marker, [], [])] else gs
  }

  /** The heap once the parent holds the value. */
  ghost predicate StoredIn(h: Heap, h': Heap, gs: seq<Open>, value: Value) {
    if gs == [] then h' == h
    else
      var g := gs[|gs| - 1];
      !g.marker.Atom? && |g.vals| < Arity(g.marker) && h' == h[g.target := NodeOf(g.marker, g.vals + [value])]
  }

  lemma WholeIsPlaced(h: Heap, h': Heap, gs: seq<Open>, value: Value, t: Tree, next: nat, after: nat)
    requires gs != [] && Built(h, gs, None, next) && next <= after
    requires Represents(h, value, t, next, after) && Proper(t)
    requires StoredIn(h, h', gs, value)
    ensures Built(h', Attached(gs, value, Whole(t)), None, after)
  {
    hide NodeOf, Proper, ValidToken, Represents, RepresentsAll;
    var n := |gs| - 1;
    var g := gs[n];
    var p := Placed(g, value, Whole(t));
    var out := Attached(gs, value, Whole(t));
    assert out[..n] == gs[..n] && out[n] == p;
    BuiltFrame(h, h', gs[..n], Some(g.target), g.target, g.target);
    RepresentsAllFrame(h, h', g.vals[..|g.done|], g.done, g.target + 1, next, after);
    RepresentsFrame(h, h', value, t, next, after, after);
    RepresentsNarrows(h', value, t, next, after, g.target + 1);
    RepresentsAllSnoc(h', g.vals[..|g.done|], g.done, value, t, g.target + 1, after);
    assert p.vals[..|p.done|] == g.vals[..|g.done|] + [value];
    ProperSnoc(g.done, t);
  }

  lemma ProperSnoc(ts: seq<Tree>, t: Tree)
    requires AllProper(ts) && Proper(t)
    ensures AllProper(ts + [t])
  {
  }

  lemma BuiltSnoc(h: Heap, below: seq<Open>, g: Open, child: Option<Ref>, hi: nat)
    requires OpenOk(h, g, child, hi) && Built(h, below, Some(g.target), g.target)
    ensures Built(h, below + [g], child, hi)
  {
  }

  lemma ContainerIsOpened(h: Heap, h': Heap, gs: seq<Open>, marker: Token, next: nat, id: nat)
    requires gs != [] && Built(h, gs, None, next)
    requires !marker.Atom? && ValidToken(marker) && Arity(marker) > 0 && next in h && h[next] == NodeOf(marker, [])
    requires StoredIn(h, h', gs, Object(next))
    ensures Built(h', Opened(Attached(gs, Object(next), Opening(marker)), Object(next), Opening(marker), id), None, next + 1)
  {
    hide NodeOf, Proper, ValidToken, RepresentsAll, AllProper, Built;
    var n := |gs| - 1;
    var g := gs[n];
    var p := Placed(g, Object(next), Opening(marker));
    assert OpenOk(h, g, None, next) && Built(h, gs[..n], Some(g.target), g.target) by { BuiltTop(h, gs, None, next); }
    BuiltFrame(h, h', gs[..n], Some(g.target), g.target, g.target);
    RepresentsAllFrame(h, h', g.vals[..|g.done|], g.done, g.target + 1, next, next);
    assert p.vals[..|p.done|] == g.vals[..|g.done|];
    BuiltSnoc(h', gs[..n], p, Some(next), next);
    assert OpenOk(h', Open(id, next, marker, [], []), None, next + 1) by {
      NothingDone(h', next + 1, next + 1);
      NoPrefix();
    }
    BuiltSnoc(h', gs[..n] + [p], Open(id, next, marker, [], []), None, next + 1);
  }

  lemma BuiltTop(h: Heap, gs: seq<Open>, child: Option<Ref>, hi: nat)
    requires gs != [] && Built(h, gs, child, hi)
    ensures var g := gs[|gs| - 1];
            OpenOk(h, g, child, hi) && Built(h, gs[..|gs| - 1], Some(g.target), g.target)
  {
  }

  lemma NothingDone(h: Heap, lo: nat, hi: nat)
    ensures RepresentsAll(h, [], [], lo, hi) && AllProper([])
  {
  }

  lemma NoPrefix()
    ensures forall vs: seq<Value> :: vs[..0] == []
  {
  }

  lemma FirstIsOpened(h: Heap, marker: Token, next: nat, id: nat)
    requires !marker.Atom? && ValidToken(marker) && Arity(marker) > 0 && next in h && h[next] == NodeOf(marker, [])
    ensures Built(h, [Open(id, next, marker, [], [])], None, next + 1)
  {
  }

  lemma EmittedExtends(gs: seq<Open>, value: Value, item: Item, token: Token, id: nat)
    requires gs != [] || item.Opening?
    requires match item
             case Whole(t) => Preorder(t) == [token]
             case Opening(m) => m == token && value.Object?
    ensures Emitted(Opened(Attached(gs, value, item), value, item, id)) == Emitted(gs) + [token]
  {
    hide Preorder;
    var mid := Attached(gs, value, item);
    if gs != [] {
      var n := |gs| - 1;
      var g := gs[n];
      assert mid[..n] == gs[..n];
      if item.Whole? {
        PreorderAllSnoc(g.done, item.t);
        assert Emitted(gs[..n]) + [g.marker] + (PreorderAll(g.done) + [token]) == Emitted(gs) + [token];
      } else {
        assert Emitted(mid) == Emitted(gs);
      }
    }
    if item.Opening? {
      var o := Open(id, value.r, item.marker, [], []);
      assert (mid + [o])[..|mid|] == mid;
      NoTrees();
      assert Emitted(mid) + [token] + [] == Emitted(mid) + [token];
    }
  }

  lemma PendingExtends(gs: seq<Open>, value: Value, item: Item, id: nat)
    requires item.Opening? ==> value.Object?
    ensures Pending(Opened(Attached(gs, value, item), value, item, id))
         == Pending(gs) - (if gs == [] then 0 else 1) + (if item.Opening? then Arity(item.marker) else 0)
  {
  }

  function RootAfter(gs: seq<Open>, root: Value, value: Value): Value { if gs == [] then value else root }

  function TreeAfter(gs: seq<Open>, tree: Tree, item: Item): Tree { if gs == [] && item.Whole? then item.t else tree }

  /** Consuming one token from a state that can still take a value. */
  lemma StandsExtends(h: Heap, next: nat, gs: seq<Open>, rooted: bool, root: Value, tree: Tree, w: seq<Token>,
                      g: Heap, g': Heap, after: nat, value: Value, item: Item, token: Token, id: nat)
    requires Stands(h, next, gs, rooted, root, tree, w)
    requires if gs == [] then !rooted else !Full(gs[|gs| - 1])
    requires Agree(h, g, 0, next) && next <= after && Brings(g, value, item, token, next, after)
    requires StoredIn(g, g', gs, value)
    ensures Stands(g', after, Opened(Attached(gs, value, item), value, item, id), true,
                   RootAfter(gs, root, value), TreeAfter(gs, tree, item), w + [token])
  {
    hide NodeOf, Proper, ValidToken, Represents, RepresentsAll, Built, OpenOk, Emitted, Pending, Preorder;
    BuiltFrame(h, g, gs, None, next, next);
    PendingIsNatural(h, gs, None, next);
    NonePending();
    OwedSnoc(w, token, 1);
    PendingExtends(gs, value, item, id);
    if gs != [] {
      EmittedExtends(gs, value, item, token, id);
      if item.Whole? {
        WholeIsPlaced(g, g', gs, value, item.t, next, after);
      } else {
        ContainerIsOpened(g, g', gs, item.marker, next, id);
      }
    } else {
      assert w + [token] == [token];
      if item.Opening? {
        EmittedExtends(gs, value, item, token, id);
        FirstIsOpened(g, item.marker, next, id);
        assert Opened(Attached(gs, value, item), value, item, id) == [Open(id, next, item.marker, [], [])];
      } else {
        NothingOpen(g, after);
        RepresentsNarrows(g, value, item.t, next, after, 0);
      }
    }
  }

  lemma NonePending()
    ensures Pending([]) == 0 && Emitted([]) == []
  {
  }

  lemma NothingOpen(h: Heap, hi: nat)
    ensures Built(h, [], None, hi)
  {
  }

  // --------------------------------------------------------------- closing a full container

  function Closed(gs: seq<Open>): seq<Open>
    requires gs != []
  {
    var n := |gs| - 1;
    var t := Branch(gs[n].marker, gs[n].done);
    if n == 0 then [] else gs[..n - 1] + [gs[n - 1].(done := gs[n - 1].done + [t])]
  }

  lemma FullIsRepresented(h: Heap, g: Open, hi: nat)
    requires OpenOk(h, g, None, hi) && Full(g)
    ensures Represents(h, Object(g.target), Branch(g.marker, g.done), g.target, hi)
    ensures Proper(Branch(g.marker, g.done))
  {
    hide NodeOf, ValidToken, RepresentsAll;
    assert g.vals[..|g.done|] == g.vals;
    assert Holds(h, g.target, g.marker, g.vals);
  }

  lemma FullIsClosed(h: Heap, gs: seq<Open>, next: nat)
    requires |gs| > 1 && Built(h, gs, None, next) && Full(gs[|gs| - 1])
    ensures Built(h, Closed(gs), None, next)
  {
    hide NodeOf, ValidToken, Represents, RepresentsAll, Proper;
    var n := |gs| - 1;
    var g, p := gs[n], gs[n - 1];
    var t := Branch(g.marker, g.done);
    FullIsRepresented(h, g, next);
    assert gs[..n][n - 1] == p && gs[..n][..n - 1] == gs[..n - 1];
    RepresentsAllFrame(h, h, p.vals[..|p.done|], p.done, p.target + 1, g.target, next);
    RepresentsNarrows(h, Object(g.target), t, g.target, next, p.target + 1);
    RepresentsAllSnoc(h, p.vals[..|p.done|], p.done, Object(g.target), t, p.target + 1, next);
    assert p.vals[..|p.done| + 1] == p.vals[..|p.done|] + [Object(g.target)];
    ProperSnoc(p.done, t);
    assert Closed(gs)[..n - 1] == gs[..n - 1];
  }

  lemma ClosingEmitsNothing(gs: seq<Open>)
    requires |gs| > 1 && Full(gs[|gs| - 1]) && |gs[|gs| - 1].vals| <= Arity(gs[|gs| - 1].marker)
    ensures Emitted(Closed(gs)) == Emitted(gs) && Pending(Closed(gs)) == Pending(gs)
  {
    var n := |gs| - 1;
    var g, p := gs[n], gs[n - 1];
    var t := Branch(g.marker, g.done);
    assert gs[..n][n - 1] == p && gs[..n][..n - 1] == gs[..n - 1];
    assert Closed(gs)[..n - 1] == gs[..n - 1];
    PreorderAllSnoc(p.done, t);
    assert Emitted(gs[..n - 1]) + [p.marker] + (PreorderAll(p.done) + ([g.marker] + PreorderAll(g.done)))
        == (Emitted(gs[..n - 1]) + [p.marker] + PreorderAll(p.done)) + [g.marker] + PreorderAll(g.done);
  }

  function TreeClosed(gs: seq<Open>, tree: Tree): Tree {
    if |gs| == 1 then Branch(gs[0].marker, gs[0].done) else tree
  }

  lemma StandsCloses(h: Heap, next: nat, gs: seq<Open>, root: Value, tree: Tree, w: seq<Token>)
    requires Stands(h, next, gs, true, root, tree, w) && gs != [] && Full(gs[|gs| - 1])
    ensures Stands(h, next, Closed(gs), true, root, TreeClosed(gs, tree), w)
  {
    hide NodeOf, Proper, ValidToken, Represents, RepresentsAll, AllProper;
    if |gs| > 1 {
      FullIsClosed(h, gs, next);
      ClosingEmitsNothing(gs);
    } else {
      var g := gs[0];
      FullIsRepresented(h, g, next);
      RepresentsNarrows(h, root, Branch(g.marker, g.done), g.target, next, 0);
      assert gs[..0] == [];
      assert Emitted(gs) == [] + [g.marker] + PreorderAll(g.done);
      assert Preorder(Branch(g.marker, g.done)) == [g.marker] + PreorderAll(g.done);
    }
  }
}
