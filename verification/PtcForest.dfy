/** Which token streams are the pre-order of trees, and of which trees. */
module PtcForest {
  import opened Prelude
  import opened JsonText
  import opened PtcValue

  /** A token that some lossless value really emits. */
  predicate ValidToken(t: Token) {
    match t
    case Atom(s) => Lossless(s)
    case ArrayMarker(_) => true
    case ObjectMarker(keys) => Distinct(keys)
  }

  predicate Distinct(keys: seq<Text>) { forall i, j :: 0 <= i < j < |keys| ==> keys[i] != keys[j] }

  /** A tree of a lossless value: every container has as many children as its marker says. */
  predicate Proper(t: Tree) {
    match t
    case Leaf(s) => Lossless(s)
    case Branch(marker, children) =>
      !marker.Atom? && ValidToken(marker) && |children| == Arity(marker) && forall c :: c in children ==> Proper(c)
  }

  predicate AllProper(ts: seq<Tree>) { forall t :: t in ts ==> Proper(t) }

  /** Whether the stream is the pre-order of `n` trees, by counting the trees still owed. */
  predicate IsForest(w: seq<Token>, n: nat)
    decreases |w|
  {
    if n == 0 then w == [] else w != [] && IsForest(w[1..], n - 1 + Arity(w[0]))
  }

  function TreeOf(t: Token, children: seq<Tree>): Tree { if t.Atom? then Leaf(t.s) else Branch(t, children) }

  /** The trees a stream spells. */
  function Grow(w: seq<Token>, n: nat): (ts: seq<Tree>)
    requires IsForest(w, n)
    ensures |ts| == n
    decreases |w|
  {
    if n == 0 then []
    else
      var a := Arity(w[0]);
      var rest := Grow(w[1..], n - 1 + a);
      [TreeOf(w[0], rest[..a])] + rest[a..]
  }

  lemma PreorderOfTree(t: Token, children: seq<Tree>)
    requires |children| == Arity(t)
    ensures Preorder(TreeOf(t, children)) == [t] + PreorderAll(children)
    ensures ValidToken(t) && AllProper(children) ==> Proper(TreeOf(t, children))
  {
  }

  function TokenOf(t: Tree): Token { if t.Leaf? then Atom(t.s) else t.marker }

  function ChildrenOf(t: Tree): seq<Tree> { if t.Leaf? then [] else t.children }

  lemma ProperTree(t: Tree)
    requires Proper(t)
    ensures t == TreeOf(TokenOf(t), ChildrenOf(t)) && |ChildrenOf(t)| == Arity(TokenOf(t))
    ensures ValidToken(TokenOf(t)) && AllProper(ChildrenOf(t))
  {
  }

  lemma GrowSteps(t: Token, w: seq<Token>, n: nat)
    requires n > 0 && IsForest(w, n - 1 + Arity(t))
    ensures IsForest([t] + w, n)
    ensures var rest := Grow(w, n - 1 + Arity(t));
            Grow([t] + w, n) == [TreeOf(t, rest[..Arity(t)])] + rest[Arity(t)..]
  {
  }

  lemma PreorderAllCons(t: Tree, ts: seq<Tree>)
    ensures PreorderAll([t] + ts) == Preorder(t) + PreorderAll(ts)
  {
  }

  /** A forest is the pre-order of the trees it grows into, and these are proper. */
  lemma {:induction false} PreorderOfGrown(w: seq<Token>, n: nat)
    requires IsForest(w, n) && forall t :: t in w ==> ValidToken(t)
    ensures PreorderAll(Grow(w, n)) == w && AllProper(Grow(w, n))
    decreases |w|
  {
    hide Preorder, PreorderAll, TreeOf, Proper, ValidToken, Grow, Arity;
    if n == 0 {
      NoTrees();
      NoForest();
    } else {
      var t, below, a := w[0], w[1..], Arity(w[0]);
      assert w == [t] + below;
      PreorderOfGrown(below, n - 1 + a);
      GrowSteps(t, below, n);
      var rest := Grow(below, n - 1 + a);
      var children, others := rest[..a], rest[a..];
      assert children + others == rest;
      PreorderAllAppend(children, others);
      PreorderOfTree(t, children);
      PreorderAllCons(TreeOf(t, children), others);
      assert [t] + (PreorderAll(children) + PreorderAll(others)) == w;
    }
  }

  lemma NoTrees()
    ensures PreorderAll([]) == []
  {
  }

  /** The pre-order of proper trees is a forest, and grows back into exactly them. */
  lemma {:induction false} GrowOfPreorder(ts: seq<Tree>)
    requires AllProper(ts)
    ensures IsForest(PreorderAll(ts), |ts|) && Grow(PreorderAll(ts), |ts|) == ts
    decreases |PreorderAll(ts)|
  {
    hide Preorder, PreorderAll, TreeOf, Proper, TokenOf, ChildrenOf, Grow, IsForest;
    if ts == [] {
      NoTrees();
      NoForest();
    } else {
      var first, others := ts[0], ts[1..];
      var token, children := TokenOf(first), ChildrenOf(first);
      assert first in ts && forall t :: t in others ==> t in ts;
      ProperTree(first);
      var below := children + others;
      assert ts == [first] + others;
      PreorderAllCons(first, others);
      PreorderOfTree(token, children);
      PreorderAllAppend(children, others);
      assert PreorderAll(ts) == [token] + PreorderAll(below);
      GrowOfPreorder(below);
      GrowSteps(token, PreorderAll(below), |ts|);
      assert below[..|children|] == children && below[|children|..] == others;
    }
  }

  lemma NoForest()
    ensures IsForest([], 0) && Grow([], 0) == []
  {
  }

  /** A stream is the pre-order of a tree exactly when it is a forest of one; of one tree only. */
  lemma SingleTree(w: seq<Token>, t: Tree)
    requires forall x :: x in w ==> ValidToken(x)
    ensures Proper(t) && Preorder(t) == w <==> IsForest(w, 1) && Grow(w, 1) == [t]
  {
    assert [t][1..] == [] && PreorderAll([t]) == Preorder(t) + PreorderAll([]);
    assert PreorderAll([t]) == Preorder(t);
    if Proper(t) && Preorder(t) == w { GrowOfPreorder([t]); }
    if IsForest(w, 1) && Grow(w, 1) == [t] {
      PreorderOfGrown(w, 1);
      assert t in [t];
    }
  }

  // ------------------------------------------------------- counting a prefix of a stream

  /** How many trees are still owed after these tokens, if none comes once nothing is owed. */
  function Owed(w: seq<Token>, n: nat): Option<nat>
    decreases |w|
  {
    if w == [] then Some(n)
    else if n == 0 then None
    else Owed(w[1..], n - 1 + Arity(w[0]))
  }

  lemma {:induction false} OwedSplits(a: seq<Token>, b: seq<Token>, n: nat)
    ensures IsForest(a + b, n) <==> Owed(a, n).Some? && IsForest(b, Owed(a, n).value)
    ensures Owed(a + b, n) == match Owed(a, n) case None => None case Some(m) => Owed(b, m)
    decreases |a|
  {
    if a == [] {
      assert a + b == b;
    } else if n > 0 {
      assert (a + b)[1..] == a[1..] + b;
      OwedSplits(a[1..], b, n - 1 + Arity(a[0]));
    }
  }

  lemma OwedSnoc(a: seq<Token>, t: Token, n: nat)
    requires Owed(a, n).Some? && Owed(a, n).value > 0
    ensures Owed(a + [t], n) == Some(Owed(a, n).value - 1 + Arity(t))
  {
    OwedSplits(a, [t], n);
    assert [t][1..] == [];
  }

  /** Every tree takes at least one token. */
  lemma {:induction false} ForestIsLongEnough(w: seq<Token>, n: nat)
    requires IsForest(w, n)
    ensures |w| >= n
    decreases |w|
  {
    if n > 0 { ForestIsLongEnough(w[1..], n - 1 + Arity(w[0])); }
  }
}
