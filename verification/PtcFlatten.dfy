/** Flattening: the explicit-stack walk that validates a value and emits its token stream. */
module PtcFlatten {
  import opened Prelude
  import opened PtcValue
  import JsonText

  datatype Task = Visit(v: Value) | Leave(r: Ref)

  /** The tokens a stack of tasks still has to emit, or nothing when one of them must fail. */
  function Expected(h: Heap, stack: seq<Task>, active: set<Ref>): Option<seq<Token>>
    decreases |stack|
  {
    if stack == [] then Some([])
    else
      var rest := stack[..|stack| - 1];
      match stack[|stack| - 1]
      case Leave(r) => Expected(h, rest, active - {r})
      case Visit(v) =>
        match Unfold(h, v, active)
        case None => None
        case Some(t) =>
          match Expected(h, rest, active)
          case None => None
          case Some(w) => Some(Preorder(t) + w)
  }

  /** How many tasks visiting a value takes when nothing in it fails. */
  function Work(h: Heap, v: Value, active: set<Ref>): (n: nat)
    ensures n >= 1
    decreases |h.Keys - active|, 1, 0
  {
    if v.Object? && v.r in h && v.r !in active && Admissible(h[v.r]) then
      EnteringShrinks(h, active, v.r);
      2 + WorkAll(h, Kids(h[v.r]), active + {v.r})
    else 1
  }

  function WorkAll(h: Heap, vs: seq<Value>, active: set<Ref>): nat
    decreases |h.Keys - active|, 2, |vs|
  {
    if vs == [] then 0 else Work(h, vs[0], active) + WorkAll(h, vs[1..], active)
  }

  function StackWork(h: Heap, stack: seq<Task>, active: set<Ref>): nat
    decreases |stack|
  {
    if stack == [] then 0
    else
      var rest := stack[..|stack| - 1];
      match stack[|stack| - 1]
      case Leave(r) => 1 + StackWork(h, rest, active - {r})
      case Visit(v) => Work(h, v, active) + StackWork(h, rest, active)
  }

  /** The visits of some values, last value deepest, so that the first is popped first. */
  function Visits(vs: seq<Value>): (stack: seq<Task>)
    ensures |stack| == |vs|
    ensures forall i :: 0 <= i < |vs| ==> stack[i] == Visit(vs[|vs| - 1 - i])
  {
    if vs == [] then [] else Visits(vs[1..]) + [Visit(vs[0])]
  }

  /** Pushing the children of a container and its leave task, in terms of what they emit. */
  lemma {:induction false} ExpectedOfVisits(h: Heap, below: seq<Task>, vs: seq<Value>, active: set<Ref>)
    ensures Expected(h, below + Visits(vs), active) ==
      match UnfoldAll(h, vs, active)
      case None => None
      case Some(ts) => (match Expected(h, below, active) case None => None case Some(w) => Some(PreorderAll(ts) + w))
    ensures StackWork(h, below + Visits(vs), active) == WorkAll(h, vs, active) + StackWork(h, below, active)
    decreases |vs|
  {
    hide Unfold, Work, Preorder;
    var stack := below + Visits(vs);
    if vs == [] {
      assert stack == below;
      if Expected(h, below, active).Some? {
        assert [] + Expected(h, below, active).value == Expected(h, below, active).value;
      }
    } else {
      ExpectedOfVisits(h, below, vs[1..], active);
      assert stack[..|stack| - 1] == below + Visits(vs[1..]);
      assert stack[|stack| - 1] == Visit(vs[0]);
      if Unfold(h, vs[0], active).Some? && UnfoldAll(h, vs[1..], active).Some? && Expected(h, below, active).Some? {
        var t, ts, w := Unfold(h, vs[0], active).value, UnfoldAll(h, vs[1..], active).value, Expected(h, below, active).value;
        assert ([t] + ts)[1..] == ts;
        assert Preorder(t) + (PreorderAll(ts) + w) == (Preorder(t) + PreorderAll(ts)) + w;
      }
    }
  }

  function Prepend(wire: seq<Token>, rest: Option<seq<Token>>): Option<seq<Token>> {
    match rest case None => None case Some(w) => Some(wire + w)
  }

  /** Entering a container: its marker, then everything its new stack still emits. */
  lemma ExpectedOfEntering(h: Heap, below: seq<Task>, r: Ref, active: set<Ref>)
    requires r in h && r !in active && Admissible(h[r])
    ensures var pushed := below + [Leave(r)] + Visits(Kids(h[r]));
            && Expected(h, below + [Visit(Object(r))], active)
                 == Prepend([MarkerOf(h[r])], Expected(h, pushed, active + {r}))
            && StackWork(h, pushed, active + {r}) < StackWork(h, below + [Visit(Object(r))], active)
  {
    hide PreorderAll, WorkAll, UnfoldAll;
    var kids := Kids(h[r]);
    ExpectedOfVisits(h, below + [Leave(r)], kids, active + {r});
    assert (below + [Leave(r)])[..|below|] == below;
    assert (below + [Visit(Object(r))])[..|below|] == below;
    assert (active + {r}) - {r} == active;
    if UnfoldAll(h, kids, active + {r}).Some? && Expected(h, below, active).Some? {
      var ts, w := UnfoldAll(h, kids, active + {r}).value, Expected(h, below, active).value;
      assert [MarkerOf(h[r])] + (PreorderAll(ts) + w) == ([MarkerOf(h[r])] + PreorderAll(ts)) + w;
    }
  }

  lemma ExpectedOfVisit(h: Heap, below: seq<Task>, v: Value, active: set<Ref>)
    ensures StackWork(h, below, active) < StackWork(h, below + [Visit(v)], active)
    ensures Unfold(h, v, active).None? ==> Expected(h, below + [Visit(v)], active) == None
    ensures v.Plain? && Lossless(v.s) ==>
      Expected(h, below + [Visit(v)], active) == Prepend([Atom(v.s)], Expected(h, below, active))
  {
  }

  lemma ExpectedOfLeave(h: Heap, below: seq<Task>, r: Ref, active: set<Ref>)
    ensures Expected(h, below + [Leave(r)], active) == Expected(h, below, active - {r})
    ensures StackWork(h, below, active - {r}) < StackWork(h, below + [Leave(r)], active)
  {
  }

  // -------------------------------------------------------------- where the walk is

  /**
   * The objects still to be left, outermost first, form one chain: the stack below the first
   * leave task holds nothing, and everything between two of them is a child of the lower one.
   */
  ghost predicate Inside(h: Heap, root: Value, stack: seq<Task>, chain: seq<Ref>)
    decreases |stack|
  {
    if stack == [] then chain == []
    else
      var top, rest := stack[|stack| - 1], stack[..|stack| - 1];
      match top
      case Visit(v) => Inside(h, root, rest, chain) && (if chain == [] then v == root && rest == [] else ChildOf(h, v, chain))
      case Leave(r) =>
        && chain != [] && chain[|chain| - 1] == r
        && Inside(h, root, rest, chain[..|chain| - 1])
        && (if |chain| == 1 then Object(r) == root && rest == [] else ChildOf(h, Object(r), chain[..|chain| - 1]))
  }

  ghost predicate ChildOf(h: Heap, v: Value, chain: seq<Ref>)
    requires chain != []
  {
    var parent := chain[|chain| - 1];
    parent in h && Admissible(h[parent]) && v in Kids(h[parent])
  }

  lemma {:induction false} InsideVisits(h: Heap, root: Value, below: seq<Task>, vs: seq<Value>, chain: seq<Ref>)
    requires Inside(h, root, below, chain) && chain != []
    requires forall v :: v in vs ==> ChildOf(h, v, chain)
    ensures Inside(h, root, below + Visits(vs), chain)
    decreases |vs|
  {
    hide ChildOf;
    if vs == [] {
      assert below + Visits(vs) == below;
    } else {
      InsideVisits(h, root, below, vs[1..], chain);
      InsideVisit(h, root, below + Visits(vs[1..]), vs[0], chain);
      assert below + Visits(vs) == below + Visits(vs[1..]) + [Visit(vs[0])];
    }
  }

  lemma InsideVisit(h: Heap, root: Value, below: seq<Task>, v: Value, chain: seq<Ref>)
    requires Inside(h, root, below, chain) && chain != [] && ChildOf(h, v, chain)
    ensures Inside(h, root, below + [Visit(v)], chain)
  {
    hide ChildOf;
    assert (below + [Visit(v)])[..|below|] == below;
  }

  lemma InsideEntered(h: Heap, root: Value, below: seq<Task>, r: Ref, chain: seq<Ref>)
    requires Inside(h, root, below + [Visit(Object(r))], chain) && r in h && Admissible(h[r])
    ensures Inside(h, root, below + [Leave(r)] + Visits(Kids(h[r])), chain + [r])
  {
    assert (below + [Visit(Object(r))])[..|below|] == below;
    assert (below + [Leave(r)])[..|below|] == below;
    assert (chain + [r])[..|chain|] == chain;
    InsideVisits(h, root, below + [Leave(r)], Kids(h[r]), chain + [r]);
  }

  lemma InsidePopped(h: Heap, root: Value, below: seq<Task>, task: Task, chain: seq<Ref>)
    requires Inside(h, root, below + [task], chain)
    ensures task.Visit? ==> Inside(h, root, below, chain)
    ensures task.Leave? ==> chain != [] && chain[|chain| - 1] == task.r && Inside(h, root, below, chain[..|chain| - 1])
  {
  }

  /** The walk is inside exactly the objects of a chain without repetitions. */
  ghost predicate ActiveIs(active: set<Ref>, chain: seq<Ref>) {
    && (forall r :: r in active <==> r in chain)
    && forall i, j :: 0 <= i < j < |chain| ==> chain[i] != chain[j]
  }

  lemma ActiveEnters(active: set<Ref>, chain: seq<Ref>, r: Ref)
    requires ActiveIs(active, chain) && r !in active
    ensures ActiveIs(active + {r}, chain + [r])
  {
  }

  lemma ActiveLeaves(active: set<Ref>, chain: seq<Ref>)
    requires ActiveIs(active, chain) && chain != []
    ensures ActiveIs(active - {chain[|chain| - 1]}, chain[..|chain| - 1])
  {
  }

  lemma PrependTwice(a: seq<Token>, b: seq<Token>, rest: Option<seq<Token>>)
    ensures Prepend(a, Prepend(b, rest)) == Prepend(a + b, rest)
  {
    if rest.Some? { assert a + (b + rest.value) == (a + b) + rest.value; }
  }

  /**
   * Flatten a value: its pre-order token stream, or nothing when it cannot cross. While the
   * walk runs, `active` is the chain of ancestors of the value being visited.
   */
  method Flatten(h: Heap, root: Value) returns (wire: Option<seq<Token>>)
    ensures wire == match Unfold(h, root, {}) case None => None case Some(t) => Some(Preorder(t))
  {
    hide Unfold, Expected, StackWork, Preorder, Inside, ActiveIs, Kids, MarkerOf, Elements;
    var out: seq<Token> := [];
    var active: set<Ref> := {};
    var stack := [Visit(root)];
    ghost var goal, chain := Expected(h, stack, {}), [];
    Begin(h, root);
    while |stack| > 0
      invariant goal == Prepend(out, Expected(h, stack, active))
      invariant ActiveIs(active, chain) && Inside(h, root, stack, chain)
      decreases StackWork(h, stack, active)
    {
      var task := stack[|stack| - 1];
      ghost var whole := stack;
      stack := stack[..|stack| - 1];
      assert whole == stack + [task];
      InsidePopped(h, root, stack, task, chain);
      if task.Leave? {
        ExpectedOfLeave(h, stack, task.r, active);
        ActiveLeaves(active, chain);
        active := active - {task.r};
        chain := chain[..|chain| - 1];
        continue;
      }
      var value := task.v;
      ExpectedOfVisit(h, stack, value, active);
      UnfoldRefuses(h, value, active);
      if value.Plain? {
        if !Lossless(value.s) {
          return None;
        }
        PrependTwice(out, [Atom(value.s)], Expected(h, stack, active));
        out := out + [Atom(value.s)];
        continue;
      }
      if value.Exotic? || value.r !in h {
        return None;
      }
      if value.r in active {
        return None;
      }
      var node := h[value.r];
      var marker, children := Enter(node);
      if children.None? {
        return None;
      }
      ExpectedOfEntering(h, stack, value.r, active);
      InsideEntered(h, root, stack, value.r, chain);
      ActiveEnters(active, chain, value.r);
      stack := stack + [Leave(value.r)] + children.value;
      PrependTwice(out, [marker], Expected(h, stack, active + {value.r}));
      out := out + [marker];
      active := active + {value.r};
      chain := chain + [value.r];
    }
    ExpectedOfNothing(h, active);
    assert out + [] == out;
    return Some(out);
  }

  /** The checks of one container, its marker, and the visits of its children to push. */
  method Enter(node: Node) returns (marker: Token, children: Option<seq<Task>>)
    ensures children.Some? <==> Admissible(node)
    ensures children.Some? ==> marker == MarkerOf(node) && children.value == Visits(Kids(node))
  {
    hide Visits;
    marker := ObjectMarker([]);
    if node.ArrayNode? {
      if !node.plain {
        return marker, None;
      }
      var length := node.length;
      if |node.elements| + node.extras != length {
        return marker, None;
      }
      var pushed: seq<Task> := [];
      var index := length;
      ghost var later: seq<Value> := [];
      NoVisits();
      while index > 0
        invariant 0 <= index <= length
        invariant forall i :: index <= i < length ==> i in node.elements
        invariant |later| == length - index && forall i :: index <= i < length ==> later[i - index] == node.elements[i]
        invariant pushed == Visits(later)
      {
        index := index - 1;
        if index !in node.elements {
          return marker, None;
        }
        VisitsCons(node.elements[index], later);
        pushed := pushed + [Visit(node.elements[index])];
        later := [node.elements[index]] + later;
      }
      assert later == Kids(node);
      return ArrayMarker(length), Some(pushed);
    }
    if !node.plain {
      return marker, None;
    }
    var keys: seq<JsonText.Text> := [];
    for k := 0 to |node.properties|
      invariant |keys| == k
      invariant forall i :: 0 <= i < k ==> node.properties[i].key.Name? && node.properties[i].enumerable && keys[i] == node.properties[i].key.text
    {
      var p := node.properties[k];
      if !p.key.Name? {
        return marker, None;
      }
      if !p.enumerable {
        return marker, None;
      }
      keys := keys + [p.key.text];
    }
    assert keys == Names(node.properties);
    var pushed: seq<Task> := [];
    var back := |keys|;
    ghost var kids := Values(node.properties);
    assert kids[back..] == [];
    NoVisits();
    while back > 0
      invariant 0 <= back <= |keys|
      invariant pushed == Visits(kids[back..])
    {
      back := back - 1;
      VisitsCons(kids[back], kids[back + 1..]);
      assert kids[back..] == [kids[back]] + kids[back + 1..];
      pushed := pushed + [Visit(node.properties[back].value)];
    }
    assert kids[0..] == kids;
    return ObjectMarker(keys), Some(pushed);
  }

  lemma NoVisits()
    ensures Visits([]) == []
  {
  }

  lemma VisitsCons(v: Value, vs: seq<Value>)
    ensures Visits([v] + vs) == Visits(vs) + [Visit(v)]
  {
  }

  lemma UnfoldRefuses(h: Heap, v: Value, active: set<Ref>)
    ensures v.Exotic? ==> Unfold(h, v, active).None?
    ensures v.Plain? && !Lossless(v.s) ==> Unfold(h, v, active).None?
    ensures v.Object? && (v.r !in h || v.r in active || !Admissible(h[v.r])) ==> Unfold(h, v, active).None?
  {
  }

  lemma ExpectedOfNothing(h: Heap, active: set<Ref>)
    ensures Expected(h, [], active) == Some([])
  {
  }

  lemma Begin(h: Heap, root: Value)
    ensures Expected(h, [Visit(root)], {}) == match Unfold(h, root, {}) case None => None case Some(t) => Some(Preorder(t))
    ensures Expected(h, [Visit(root)], {}) == Prepend([], Expected(h, [Visit(root)], {}))
    ensures Inside(h, root, [Visit(root)], []) && ActiveIs({}, [])
  {
    hide Unfold, Preorder;
    assert [Visit(root)][..0] == [];
    if Unfold(h, root, {}).Some? {
      var t := Unfold(h, root, {}).value;
      assert Preorder(t) + [] == Preorder(t) && [] + Preorder(t) == Preorder(t);
    }
  }
}
