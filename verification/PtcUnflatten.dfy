/** Rebuilding a value from its token stream with a stack of frames. */
module PtcUnflatten {
  import opened Prelude
  import opened PtcValue
  import opened PtcForest
  import opened PtcKeyOrder
  import opened PtcMarker
  import opened PtcFrames

  /** A frame: the container being filled and the position of its next child. */
  datatype Frame = Frame(target: Ref, marker: Token, index: nat)

  predicate Exhausted(f: Frame) { f.index >= Arity(f.marker) }

  // ------------------------------------------------------------- the stack of frames

  /** Neighbouring repetitions of one frame count once. */
  function Dedup(frames: seq<nat>): (r: seq<nat>)
    ensures |r| <= |frames| && (frames == [] <==> r == [])
    ensures frames != [] ==> r[|r| - 1] == frames[|frames| - 1]
  {
    if |frames| <= 1 then frames
    else
      var n := |frames| - 1;
      if frames[n - 1] == frames[n] then Dedup(frames[..n]) else Dedup(frames[..n]) + [frames[n]]
  }

  lemma DedupPush(frames: seq<nat>, f: nat)
    ensures Dedup(frames + [f]) == if frames != [] && frames[|frames| - 1] == f then Dedup(frames) else Dedup(frames) + [f]
  {
  }

  lemma DedupPop(frames: seq<nat>)
    requires frames != []
    ensures var d, less := Dedup(frames), Dedup(frames[..|frames| - 1]);
            less == d || less == d[..|d| - 1]
  {
  }

  function Ids(gs: seq<Open>): (r: seq<nat>)
    ensures |r| == |gs| && forall i :: 0 <= i < |gs| ==> r[i] == gs[i].id
  {
    seq(|gs|, i requires 0 <= i < |gs| => gs[i].id)
  }

  /** Each open container has its frame, and later ones have later frames. */
  ghost predicate Tied(table: seq<Frame>, gs: seq<Open>) {
    && (forall i :: 0 <= i < |gs| ==> TiedOne(table, gs[i]))
    && forall i, j :: 0 <= i < j < |gs| ==> gs[i].id < gs[j].id
  }

  ghost predicate TiedOne(table: seq<Frame>, g: Open) {
    g.id < |table| && table[g.id] == Frame(g.target, g.marker, |g.vals|)
  }

  /**
   * The `frame` variable outlives the token that set it, so it is pushed again after every
   * later token: it is the innermost open frame, or it is exhausted and popped at once.
   */
  ghost predicate Lingers(frame: Option<nat>, table: seq<Frame>, gs: seq<Open>) {
    match frame
    case None => gs == []
    case Some(f) => f < |table| && ((gs != [] && gs[|gs| - 1].id == f) || Exhausted(table[f]))
  }

  ghost predicate Stacked(frames: seq<nat>, frame: Option<nat>, table: seq<Frame>, gs: seq<Open>) {
    || Dedup(frames) == Ids(gs)
    || (frame.Some? && frame.value < |table| && Exhausted(table[frame.value])
        && Dedup(frames) == Ids(gs) + [frame.value])
  }

  /** The frames once a value has been stored: the parent has advanced, a container has opened. */
  function Advanced(table: seq<Frame>, gs: seq<Open>, value: Value, item: Item): seq<Frame>
    requires gs != [] ==> gs[|gs| - 1].id < |table|
  {
    var grown := if item.Opening? && value.Object? then table + [Frame(value.r, item.marker, 0)] else table;
    if gs == [] then grown
    else
      var id := gs[|gs| - 1].id;
      grown[id := grown[id].(index := grown[id].index + 1)]
  }

  lemma OpensAdvance(gs: seq<Open>, value: Value, item: Item, id: nat)
    requires item.Opening? ==> value.Object?
    ensures var out := Opened(Attached(gs, value, item), value, item, id);
      && |out| == |gs| + (if item.Opening? then 1 else 0)
      && (forall i :: 0 <= i < |gs| ==>
            out[i].id == gs[i].id && out[i].target == gs[i].target && out[i].marker == gs[i].marker
            && |out[i].vals| == |gs[i].vals| + (if i == |gs| - 1 then 1 else 0))
      && (item.Opening? ==> out[|gs|] == Open(id, value.r, item.marker, [], []))
  {
  }

  lemma TiedAdvances(table: seq<Frame>, gs: seq<Open>, value: Value, item: Item)
    requires Tied(table, gs) && (item.Opening? ==> value.Object?)
    ensures Tied(Advanced(table, gs, value, item), Opened(Attached(gs, value, item), value, item, |table|))
  {
    hide Opened, Attached;
    OpensAdvance(gs, value, item, |table|);
    var table', gs' := Advanced(table, gs, value, item), Opened(Attached(gs, value, item), value, item, |table|);
    forall i | 0 <= i < |gs'| ensures TiedOne(table', gs'[i]) {
      if i < |gs| { assert TiedOne(table, gs[i]); }
    }
  }

  lemma LingersAdvances(table: seq<Frame>, gs: seq<Open>, value: Value, item: Item, frame: Option<nat>)
    requires Tied(table, gs) && (item.Opening? ==> value.Object?) && Lingers(frame, table, gs)
    ensures var frame' := if item.Opening? then Some(|table|) else frame;
            Lingers(frame', Advanced(table, gs, value, item), Opened(Attached(gs, value, item), value, item, |table|))
  {
  }

  lemma StackAdvances(table: seq<Frame>, gs: seq<Open>, value: Value, item: Item, frame: Option<nat>, frames: seq<nat>)
    requires Tied(table, gs) && (item.Opening? ==> value.Object?) && Lingers(frame, table, gs)
    requires Dedup(frames) == Ids(gs)
    ensures var frame' := if item.Opening? then Some(|table|) else frame;
            var frames' := if frame'.Some? then frames + [frame'.value] else frames;
            Stacked(frames', frame', Advanced(table, gs, value, item), Opened(Attached(gs, value, item), value, item, |table|))
  {
    hide Dedup, Advanced, Opened, Attached, Exhausted, Ids;
    var gs' := Opened(Attached(gs, value, item), value, item, |table|);
    IdsAdvance(gs, value, item, |table|);
    if item.Opening? {
      DedupPush(frames, |table|);
      if gs != [] { assert TiedOne(table, gs[|gs| - 1]); }
    } else if frame.Some? {
      DedupPush(frames, frame.value);
      LingeringStaysExhausted(table, gs, value, item, frame);
    }
  }

  lemma IdsAdvance(gs: seq<Open>, value: Value, item: Item, id: nat)
    requires item.Opening? ==> value.Object?
    ensures Ids(Opened(Attached(gs, value, item), value, item, id)) == Ids(gs) + (if item.Opening? then [id] else [])
  {
  }

  lemma LingeringStaysExhausted(table: seq<Frame>, gs: seq<Open>, value: Value, item: Item, frame: Option<nat>)
    requires Tied(table, gs) && item.Whole? && frame.Some? && Lingers(frame, table, gs)
    ensures var table' := Advanced(table, gs, value, item);
            frame.value < |table'| && ((gs != [] && gs[|gs| - 1].id == frame.value) || Exhausted(table'[frame.value]))
  {
  }

  /** Popping an exhausted frame: a repetition, the lingering frame, or a container to close. */
  lemma PoppedStack(frames: seq<nat>, frame: Option<nat>, table: seq<Frame>, gs: seq<Open>)
    requires frames != [] && Tied(table, gs) && Stacked(frames, frame, table, gs) && Lingers(frame, table, gs)
    requires frames[|frames| - 1] < |table| && Exhausted(table[frames[|frames| - 1]])
    ensures var less := frames[..|frames| - 1];
            if gs != [] && Dedup(frames) == Ids(gs) && Dedup(less) != Ids(gs) then
              && Full(gs[|gs| - 1]) && Stacked(less, frame, table, Closed(gs))
              && Tied(table, Closed(gs)) && Lingers(frame, table, Closed(gs))
            else Stacked(less, frame, table, gs)
  {
    hide Dedup, Closed;
    var less := frames[..|frames| - 1];
    DedupPop(frames);
    if gs != [] && Dedup(frames) == Ids(gs) && Dedup(less) != Ids(gs) {
      ClosingIsTied(table, gs);
    } else if Dedup(frames) != Ids(gs) {
      assert (Ids(gs) + [frame.value])[..|gs|] == Ids(gs);
    }
  }

  lemma ClosingIsTied(table: seq<Frame>, gs: seq<Open>)
    requires gs != [] && Tied(table, gs)
    ensures Ids(Closed(gs)) == Ids(gs)[..|gs| - 1] && Tied(table, Closed(gs))
    ensures |Closed(gs)| == |gs| - 1
    ensures TiedOne(table, gs[|gs| - 1])
  {
  }

  /** A frame that is not exhausted is the innermost open container. */
  lemma TopOfStack(frames: seq<nat>, frame: Option<nat>, table: seq<Frame>, gs: seq<Open>)
    requires Tied(table, gs) && Stacked(frames, frame, table, gs)
    ensures frames != [] ==> frames[|frames| - 1] < |table|
    ensures frames == [] ==> gs == [] && Dedup(frames) == Ids(gs)
    ensures frames != [] && !Exhausted(table[frames[|frames| - 1]]) ==>
      && Dedup(frames) == Ids(gs) && gs != [] && gs[|gs| - 1].id == frames[|frames| - 1]
      && !Full(gs[|gs| - 1]) && TiedOne(table, gs[|gs| - 1])
  {
  }

  // ------------------------------------------------------------------ rejected streams

  /** The tree whose complete pre-order the input is, if there is one. */
  function StreamTree(source: Heap, input: seq<Value>): Option<Tree> {
    match DecodeTokens(source, input)
    case None => None
    case Some(w) => if IsForest(w, 1) then Some(Grow(w, 1)[0]) else None
  }

  /** An input is the stream of a tree exactly when that tree is proper and spells it. */
  lemma StreamTreeSpells(source: Heap, input: seq<Value>, t: Tree)
    ensures StreamTree(source, input) == Some(t) <==> Proper(t) && DecodeTokens(source, input) == Some(Preorder(t))
  {
    hide IsForest, Preorder, Proper, Grow;
    if DecodeTokens(source, input).Some? {
      var w := DecodeTokens(source, input).value;
      SingleTree(w, t);
      assert IsForest(w, 1) ==> (Grow(w, 1) == [t] <==> Grow(w, 1)[0] == t);
    }
  }

  lemma NotAForest(source: Heap, input: seq<Value>)
    requires DecodeTokens(source, input).Some? ==> !IsForest(DecodeTokens(source, input).value, 1)
    ensures StreamTree(source, input).None?
  {
  }

  /** The tokens so far can be no beginning of a stream that goes on like this. */
  lemma Rejected(source: Heap, input: seq<Value>, i: nat, w: seq<Token>)
    requires i < |input| && DecodeTokens(source, input[..i]) == Some(w) && Owed(w, 1).Some?
    requires match DecodeToken(source, input[i])
             case None => true
             case Some(t) => Owed(w, 1).value == 0 || Arity(t) > |input| - i - 1
    ensures StreamTree(source, input).None?
  {
    hide DecodeToken, Arity;
    if DecodeTokens(source, input).Some? && IsForest(DecodeTokens(source, input).value, 1) {
      var full := DecodeTokens(source, input).value;
      DecodedPrefix(source, input, i);
      assert w == full[..i] && full == full[..i] + full[i..];
      OwedSplits(full[..i], full[i..], 1);
      assert full[i..][1..] == full[i + 1..];
      if Owed(w, 1).value > 0 {
        ForestIsLongEnough(full[i + 1..], Owed(w, 1).value - 1 + Arity(full[i]));
      }
    }
    NotAForest(source, input);
  }

  lemma Unfinished(source: Heap, input: seq<Value>, w: seq<Token>)
    requires DecodeTokens(source, input) == Some(w) && Owed(w, 1).Some? && Owed(w, 1).value > 0
    ensures StreamTree(source, input).None?
  {
    OwedSplits(w, [], 1);
    assert w + [] == w;
    NotAForest(source, input);
  }

  lemma EmptyStream(source: Heap)
    ensures StreamTree(source, []).None? && DecodeTokens(source, []) == Some([]) && Owed([], 1) == Some(1)
  {
  }

  // ----------------------------------------------------------------- steps of the loop

  lemma BeforeAnything(h: Heap, root: Value, tree: Tree, table: seq<Frame>)
    ensures Stands(h, 0, [], false, root, tree, []) && Tied(table, []) && Lingers(None, table, []) && Dedup([]) == Ids([])
  {
  }

  lemma ScalarArrives(h: Heap, s: Scalar, next: nat)
    requires Lossless(s)
    ensures Agree(h, h, 0, next) && Brings(h, Plain(s), Whole(Leaf(s)), Atom(s), next, next)
  {
  }

  lemma ContainerArrives(before: Heap, marker: Token, next: nat)
    requires !marker.Atom? && ValidToken(marker)
    ensures var h := before[next := NodeOf(marker, [])];
            var item := if Arity(marker) > 0 then Opening(marker) else Whole(Branch(marker, []));
            Agree(before, h, 0, next) && Brings(h, Object(next), item, marker, next, next + 1)
  {
    var h := before[next := NodeOf(marker, [])];
    if Arity(marker) == 0 {
      assert Holds(h, next, marker, []) && RepresentsAll(h, [], [], next + 1, next + 1);
    }
  }

  lemma MarkerIsValid(source: Heap, token: Value)
    requires !token.Plain? && DecodeMarker(source, token).Some?
    ensures var m := DecodeMarker(source, token).value;
            !m.Atom? && ValidToken(m) && DecodeToken(source, token) == Some(m)
  {
  }

  lemma StandsOwes(h: Heap, next: nat, gs: seq<Open>, rooted: bool, root: Value, tree: Tree, w: seq<Token>)
    requires Stands(h, next, gs, rooted, root, tree, w)
    ensures Owed(w, 1).Some? && (gs != [] ==> rooted)
    ensures rooted && gs == [] ==> Owed(w, 1).value == 0
    ensures gs != [] && !Full(gs[|gs| - 1]) ==> Owed(w, 1).value > 0
  {
    hide Built, Owed;
    PendingIsNatural(h, gs, None, next);
  }

  /** The stack's top frame is that of the innermost open container, which is not full. */
  lemma ParentIsInnermost(frames: seq<nat>, table: seq<Frame>, gs: seq<Open>)
    requires Tied(table, gs) && Dedup(frames) == Ids(gs) && (gs != [] ==> !Full(gs[|gs| - 1]))
    ensures frames == [] <==> gs == []
    ensures frames != [] ==> var g := gs[|gs| - 1];
      && frames[|frames| - 1] == g.id && g.id < |table| && table[g.id] == Frame(g.target, g.marker, |g.vals|)
      && !Exhausted(table[g.id])
  {
  }

  /** Storing a child into the parent object is what the innermost container expects. */
  lemma Storing(before: Heap, next: nat, gs: seq<Open>, rooted: bool, root: Value, tree: Tree, w: seq<Token>,
                h: Heap, value: Value)
    requires Stands(before, next, gs, rooted, root, tree, w) && gs != [] && !Full(gs[|gs| - 1])
    requires Agree(before, h, 0, next)
    ensures var g := gs[|gs| - 1];
            && g.target in h && !g.marker.Atom? && |g.vals| < Arity(g.marker)
            && (h[g.target].ArrayNode? <==> g.marker.ArrayMarker?)
            && StoredIn(h, h[g.target := Stored(h[g.target], g.marker, |g.vals|, value)], gs, value)
  {
    hide Owed, Pending, Emitted, Finished, Stored, RepresentsAll, AllProper, Distinct;
    var g := gs[|gs| - 1];
    StoringExtends(g.marker, g.vals, value);
  }

  lemma Unchanged(gs: seq<Open>, h: Heap, value: Value)
    requires gs == []
    ensures StoredIn(h, h, gs, value)
  {
  }

  lemma FinishedUnfolds(h: Heap, next: nat, root: Value, tree: Tree, w: seq<Token>)
    requires Stands(h, next, [], true, root, tree, w)
    ensures Unfold(h, root, {}) == Some(Ordered(tree)) && Proper(tree) && Preorder(tree) == w
  {
    hide Unfold, Represents, Proper, Preorder, Built, Owed;
    RepresentsUnfolds(h, root, tree, 0, next, {});
  }

  // ------------------------------------------------------------------------ unflatten

  /** Pop the frames that have all their children. */
  method PopExhausted(stack: seq<nat>, frame: Option<nat>, table: seq<Frame>, ghost h: Heap, ghost next: nat,
                      ghost open: seq<Open>, ghost root: Value, ghost sofar: Tree, ghost w: seq<Token>)
      returns (frames: seq<nat>, ghost gs: seq<Open>, ghost tree: Tree)
    requires Stands(h, next, open, true, root, sofar, w)
    requires Tied(table, open) && Lingers(frame, table, open) && Stacked(stack, frame, table, open)
    ensures frames <= stack && forall i :: |frames| <= i < |stack| ==> stack[i] < |table| && Exhausted(table[stack[i]])
    ensures frames != [] ==> frames[|frames| - 1] < |table| && !Exhausted(table[frames[|frames| - 1]])
    ensures Stands(h, next, gs, true, root, tree, w)
    ensures Tied(table, gs) && Lingers(frame, table, gs) && Dedup(frames) == Ids(gs)
    ensures gs != [] ==> !Full(gs[|gs| - 1])
  {
    hide Stands, Tied, Lingers, Stacked, Dedup, Ids, Closed;
    frames, gs, tree := stack, open, sofar;
    while |frames| > 0
      invariant frames <= stack && forall i :: |frames| <= i < |stack| ==> stack[i] < |table| && Exhausted(table[stack[i]])
      invariant Stands(h, next, gs, true, root, tree, w)
      invariant Tied(table, gs) && Lingers(frame, table, gs) && Stacked(frames, frame, table, gs)
      decreases |frames|
    {
      TopOfStack(frames, frame, table, gs);
      var current := table[frames[|frames| - 1]];
      if !Exhausted(current) {
        return;
      }
      PoppedStack(frames, frame, table, gs);
      var less := frames[..|frames| - 1];
      if gs != [] && Dedup(frames) == Ids(gs) && Dedup(less) != Ids(gs) {
        StandsCloses(h, next, gs, root, tree, w);
        tree := TreeClosed(gs, tree);
        gs := Closed(gs);
      }
      frames := less;
    }
    TopOfStack(frames, frame, table, gs);
  }

  lemma AdvancedIs(table: seq<Frame>, gs: seq<Open>, value: Value, item: Item)
    requires Tied(table, gs)
    ensures var grown := if item.Opening? && value.Object? then table + [Frame(value.r, item.marker, 0)] else table;
            if gs == [] then Advanced(table, gs, value, item) == grown
            else var g := gs[|gs| - 1];
              && g.id < |table| && table[g.id].marker == g.marker
              && Advanced(table, gs, value, item) == grown[g.id := grown[g.id].(index := grown[g.id].index + 1)]
  {
  }

  /**
   * Rebuild a value: it succeeds exactly on the complete pre-order of one tree, and the value
   * it builds unfolds to that tree with every object's keys in their own order.
   */
  method Unflatten(source: Heap, input: seq<Value>) returns (result: Option<(Heap, Value)>)
    ensures match StreamTree(source, input)
            case None => result.None?
            case Some(t) => result.Some? && Unfold(result.value.0, result.value.1, {}) == Some(Ordered(t))
  {
    hide Unfold, Ordered, Preorder, Proper, Stands, Tied, Lingers, Stacked, Dedup, Ids, StreamTree, Advanced, Closed,
         Opened, Attached, Built, OpenOk, Owed, IsForest, DecodeMarker, DecodeTokens, NodeOf, Stored, StoredIn, Brings, Agree;
    EmptyStream(source);
    if |input| == 0 {
      return None;
    }
    var frames: seq<nat> := [];
    var table: seq<Frame> := [];
    var frame: Option<nat> := None;
    var h: Heap := map[];
    var next: nat := 0;
    var root := Exotic;
    var rooted := false;
    ghost var w: seq<Token> := [];
    ghost var gs: seq<Open> := [];
    ghost var tree := Leaf(Null);
    BeforeAnything(h, root, tree, table);
    assert input[..0] == [];
    for index := 0 to |input|
      invariant DecodeTokens(source, input[..index]) == Some(w)
      invariant rooted <==> index > 0
      invariant Stands(h, next, gs, rooted, root, tree, w)
      invariant Tied(table, gs) && Lingers(frame, table, gs) && Dedup(frames) == Ids(gs)
      invariant gs != [] ==> !Full(gs[|gs| - 1])
    {
      var token := input[index];
      var value := token;
      ghost var item := Whole(Leaf(Null));
      ghost var old_h, old_next, old_table, old_root, old_frame := h, next, table, root, frame;
      assert input[..index + 1] == input[..index] + [token];
      StandsOwes(h, next, gs, rooted, root, tree, w);
      ParentIsInnermost(frames, table, gs);
      if token.Plain? {
        if !Lossless(token.s) {
          Rejected(source, input, index, w);
          return None;
        }
        item := Whole(Leaf(token.s));
        ScalarArrives(h, token.s, next);
      } else {
        var marker := ContainerMarker(source, token);
        if marker.None? {
          Rejected(source, input, index, w);
          return None;
        }
        MarkerIsValid(source, token);
        var remaining := |input| - index - 1;
        if Arity(marker.value) > remaining {
          Rejected(source, input, index, w);
          return None;
        }
        ContainerArrives(h, marker.value, next);
        value := Object(next);
        h := h[next := NodeOf(marker.value, [])];
        if Arity(marker.value) > 0 {
          frame := Some(|table|);
          table := table + [Frame(next, marker.value, 0)];
          item := Opening(marker.value);
        } else {
          item := Whole(Branch(marker.value, []));
        }
        next := next + 1;
      }
      ghost var read := DecodeToken(source, token).value;
      assert Agree(old_h, h, 0, old_next) && Brings(h, value, item, read, old_next, next);
      ghost var fresh_h := h;
      if |frames| == 0 {
        if rooted {
          Rejected(source, input, index, w);
          return None;
        }
        Unchanged(gs, h, value);
        root := value;
        rooted := true;
      } else {
        var parent := frames[|frames| - 1];
        var f := table[parent];
        if Exhausted(f) {
          // A full frame never stays on top of the stack.
          assert false;
        }
        Storing(old_h, old_next, gs, rooted, root, tree, w, h, value);
        h := h[f.target := Stored(h[f.target], f.marker, f.index, value)];
        table := table[parent := f.(index := f.index + 1)];
      }
      DecodeTokensSnoc(source, input[..index], token);
      StandsExtends(old_h, old_next, gs, index > 0, old_root, tree, w, fresh_h, h, next, value, item, read, |old_table|);
      assert table == Advanced(old_table, gs, value, item) by { AdvancedIs(old_table, gs, value, item); }
      TiedAdvances(old_table, gs, value, item);
      LingersAdvances(old_table, gs, value, item, old_frame);
      StackAdvances(old_table, gs, value, item, old_frame, frames);
      gs, tree, w := Opened(Attached(gs, value, item), value, item, |old_table|), TreeAfter(gs, tree, item), w + [read];
      if frame.Some? {
        frames := frames + [frame.value];
      }
      frames, gs, tree := PopExhausted(frames, frame, table, h, next, gs, root, tree, w);
    }
    assert input[..|input|] == input;
    StandsOwes(h, next, gs, rooted, root, tree, w);
    ParentIsInnermost(frames, table, gs);
    if |frames| == 0 {
      FinishedUnfolds(h, next, root, tree, w);
      StreamTreeSpells(source, input, tree);
      return Some((h, root));
    }
    Unfinished(source, input, w);
    return None;
  }
}
