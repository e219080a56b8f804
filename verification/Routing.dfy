/** Which machine a path belongs to, and the keys that name a file on one. */
module Routing {
  import opened Prelude
  import opened Paths

  type NodeId = Path

  datatype AnchorRoute = AnchorRoute(anchorPath: Path, node: NodeId, remoteRoot: Path)

  datatype Route = Local | Remote(node: NodeId, path: Path) | Ambiguous(path: Path, nodes: seq<NodeId>)

  /** The store keeps real paths, and roots that are absolute and normal. */
  predicate Placed(a: AnchorRoute) { Normal(a.anchorPath) && Normal(a.remoteRoot) }

  // -------------------------------------------------------------------- absolute paths

  /** Backslashes become slashes. */
  function Unified(p: Path): (r: Path)
    ensures |r| == |p| && forall i :: 0 <= i < |p| ==> r[i] == if p[i] == '\\' then '/' else p[i]
  {
    seq(|p|, i requires 0 <= i < |p| => if p[i] == '\\' then '/' else p[i])
  }

  predicate IsAbsolute(p: Path) { p != "" && p[0] == '/' }

  function ToAbsolute(input: Path, cwd: Option<Path>): Path {
    var unified := Unified(input);
    if IsAbsolute(unified) then Normalize(unified)
    else Normalize(Join(if cwd.None? then "/" else cwd.value, unified))
  }

  /** Normalizing keeps whether a path is absolute. */
  lemma NormalizeKeepsAbsolute(p: Path)
    ensures Normalize(p) != "" && (IsAbsolute(Normalize(p)) <==> IsAbsolute(p))
  {
    hide Pieces, Resolve;
    if IsAbsolute(p) {
      NormalizeRenders(p);
    } else if p != "" {
      ResolvedAreSegments([], Pieces(p));
      var segs := Resolve([], Pieces(p), true);
      if segs != [] {
        assert segs[0] in segs;
        assert Spell(segs)[1] == segs[0][0];
      }
    }
  }

  lemma {:induction false} ResolvedAreSegments(acc: seq<Path>, pieces: seq<Path>)
    requires forall s :: s in acc || s in pieces ==> '/' !in s
    requires forall s :: s in acc ==> s != ""
    ensures forall s :: s in Resolve(acc, pieces, true) ==> s != "" && '/' !in s
    decreases |pieces|
  {
    if pieces != [] {
      assert pieces[0] in pieces;
      ResolvedAreSegments(Enter(acc, pieces[0], true), pieces[1..]);
    }
  }

  /** The result is absolute, and then normal, exactly when the input or the base is absolute. */
  lemma AbsoluteExactlyWhen(input: Path, cwd: Option<Path>)
    ensures IsAbsolute(ToAbsolute(input, cwd)) <==> IsAbsolute(Unified(input)) || cwd.None? || IsAbsolute(cwd.value)
    ensures IsAbsolute(ToAbsolute(input, cwd)) ==> Normal(ToAbsolute(input, cwd))
  {
    hide Normalize;
    var unified := Unified(input);
    if IsAbsolute(unified) {
      NormalizeRenders(unified);
      NormalizeKeepsAbsolute(unified);
    } else {
      var base := if cwd.None? then "/" else cwd.value;
      var joined := Join(base, unified);
      NormalizeKeepsAbsolute(unified);
      NormalizeKeepsAbsolute(base);
      NormalizeKeepsAbsolute(base + "/" + unified);
      assert base != "" ==> (base + "/" + unified)[0] == base[0];
      assert IsAbsolute(joined) <==> IsAbsolute(base);
      NormalizeKeepsAbsolute(joined);
      if IsAbsolute(joined) { NormalizeRenders(joined); }
    }
  }

  /** A relative path extends its base: the base, a slash and the path, normalized once. */
  lemma RelativeExtendsBase(input: Path, cwd: Option<Path>)
    requires input != "" && !IsAbsolute(Unified(input)) && (cwd.Some? ==> IsAbsolute(cwd.value))
    ensures ToAbsolute(input, cwd) == Normalize((if cwd.None? then "/" else cwd.value) + "/" + Unified(input))
  {
    hide Normalize;
    var base := if cwd.None? then "/" else cwd.value;
    var joined := base + "/" + Unified(input);
    assert joined[0] == base[0];
    NormalizeRenders(joined);
    NormalIsItself(Normalize(joined));
  }

  lemma NormalIsItself(p: Path)
    requires Normal(p)
    ensures Normalize(p) == p
  {
  }

  /** Plain relative segments are appended to those of the base, whatever the separators. */
  lemma SegmentsAreAppended(segs: seq<Path>, slash: bool, input: Path, cwd: Option<Path>)
    requires segs != [] && AllPlain(segs) && Unified(input) == Render(segs, slash)[1..] && (cwd.Some? ==> Normal(cwd.value))
    ensures ToAbsolute(input, cwd) == Render(SegsOf(if cwd.None? then "/" else cwd.value) + segs, slash)
  {
    hide Normalize, Resolve, Pieces;
    var base, unified := if cwd.None? then "/" else cwd.value, Unified(input);
    RelativeSpelling(segs, slash);
    RelativeExtendsBase(input, cwd);
    var p := base + "/" + unified;
    assert p[0] == base[0] by { RootIsAbsolute(cwd); }
    NormalizeRenders(p);
    PiecesOfConcat(base, unified);
    ResolveConcat([], Pieces(base), Pieces(unified), false);
    ResolveConcat(SegsOf(base), segs, if slash then [""] else [], false);
    NormalizeRenders(base) by { RootIsAbsolute(cwd); }
    ResolvePlain(SegsOf(base), segs, false);
    ResolveSkips(SegsOf(base) + segs, false);
    assert EndsInSlash(p) == EndsInSlash(unified);
  }

  lemma RootIsAbsolute(cwd: Option<Path>)
    requires cwd.Some? ==> Normal(cwd.value)
    ensures IsAbsolute(if cwd.None? then "/" else cwd.value)
  {
  }

  lemma FirstOfPlain(seg: Path)
    requires Plain(seg)
    ensures seg != "" && seg[0] != '/'
  {
    assert seg[0] in seg;
  }

  /** Rendered segments without the leading slash. */
  lemma RelativeSpelling(segs: seq<Path>, slash: bool)
    requires segs != [] && AllPlain(segs)
    ensures var q := Render(segs, slash)[1..];
      && q != "" && !IsAbsolute(q) && (EndsInSlash(q) <==> slash)
      && Pieces(q) == segs + (if slash then [""] else [])
  {
    hide Pieces, Spell, Render, SegsOf;
    var r, tail := Render(segs, slash), if slash then "/" else "";
    RenderedAs(segs, slash);
    SpellCons(segs, tail);
    var q := segs[0] + (Spell(segs[1..]) + tail);
    assert r == ['/'] + q && r[1..] == q;
    SegsOfRender(segs, slash);
    FirstOfPlain(segs[0]);
    assert r[|r| - 1] == q[|q| - 1];
    PiecesOfSpell(segs, tail);
    PiecesCons('/', q);
    assert ([""] + Pieces(q))[1..] == Pieces(q);
    assert ([""] + segs + (if slash then [""] else []))[1..] == segs + (if slash then [""] else []);
  }

  /** A normal path without backslashes is its own absolute form. */
  lemma NormalIsItsOwn(p: Path, cwd: Option<Path>)
    requires Normal(p) && '\\' !in p
    ensures ToAbsolute(p, cwd) == p
  {
    assert Unified(p) == p;
  }

  // ---------------------------------------------------------------------- explicit keys

  const PREFIX: Path := "node:"

  function ComposeKey(node: NodeId, path: Path): Path { PREFIX + node + ":" + path }

  /** The position of the first character that is one of these, or the length. */
  function FirstOf(p: Path, stops: set<char>): (n: nat)
    ensures n <= |p| && (forall i :: 0 <= i < n ==> p[i] !in stops) && (n < |p| ==> p[n] in stops)
  {
    if p == "" || p[0] in stops then 0 else 1 + FirstOf(p[1..], stops)
  }

  lemma FirstOfIs(p: Path, stops: set<char>, n: nat)
    requires n < |p| && p[n] in stops && forall i :: 0 <= i < n ==> p[i] !in stops
    ensures FirstOf(p, stops) == n
  {
  }

  /** A key taken apart, or nothing when it names a local file. */
  function ParseKey(key: Path): Option<(NodeId, Path)> {
    if !(PREFIX <= key) then None
    else
      var rest := key[|PREFIX|..];
      var separator := FirstOf(rest, {':'});
      if separator == 0 || separator == |rest| || !IsAbsolute(rest[separator + 1..]) then None
      else Some((rest[..separator], rest[separator + 1..]))
  }

  /** The explicit spelling of a path on a node; the id holds neither colon nor slash. */
  function ExplicitOf(input: Path): Option<(NodeId, Path)> {
    if !(PREFIX <= input) then None
    else
      var rest := input[|PREFIX|..];
      var n := FirstOf(rest, {':', '/'});
      if n == 0 || n == |rest| || rest[n] != ':' || !IsAbsolute(rest[n + 1..]) then None
      else Some((rest[..n], rest[n + 1..]))
  }

  /** A path is read as explicit exactly when it is a node's id and an absolute path put together. */
  lemma ExplicitExactly(input: Path, node: NodeId, path: Path)
    ensures ExplicitOf(input) == Some((node, path)) <==>
      && node != "" && ':' !in node && '/' !in node && IsAbsolute(path) && input == "node:" + node + ":" + path
  {
    if node != "" && ':' !in node && '/' !in node && IsAbsolute(path) && input == "node:" + node + ":" + path {
      var rest := node + ":" + path;
      assert input[|PREFIX|..] == rest;
      FirstOfIs(rest, {':', '/'}, |node|);
      assert rest[..|node|] == node && rest[|node| + 1..] == path;
    }
    if ExplicitOf(input) == Some((node, path)) {
      var rest := input[|PREFIX|..];
      assert rest == node + ":" + path && input == PREFIX + rest;
    }
  }

  /** A composed key reads back exactly when the id has no colon and the path is absolute. */
  lemma KeyRoundTrip(node: NodeId, path: Path)
    ensures ParseKey(ComposeKey(node, path)) == Some((node, path)) <==> node != "" && ':' !in node && IsAbsolute(path)
  {
    var key := ComposeKey(node, path);
    var rest := node + ":" + path;
    assert key == PREFIX + rest && key[|PREFIX|..] == rest;
    if ':' !in node {
      FirstOfIs(rest, {':'}, |node|);
      assert rest[..|node|] == node && rest[|node| + 1..] == path;
    } else {
      var i :| 0 <= i < |node| && node[i] == ':';
      assert rest[i] == ':';
      assert FirstOf(rest, {':'}) <= i;
    }
  }

  /** What parses as a key is the key of what it parses to. */
  lemma ParsedKeyComposes(key: Path)
    ensures ParseKey(key).Some? ==> ComposeKey(ParseKey(key).value.0, ParseKey(key).value.1) == key
  {
  }

  // ---------------------------------------------------------------------- classification

  /** The first anchor whose own directory holds the path. */
  function FirstCovering(anchors: seq<AnchorRoute>, p: Path): (r: Option<nat>)
    ensures r.Some? ==> r.value < |anchors| && IsWithin(anchors[r.value].anchorPath, p)
                        && forall j :: 0 <= j < r.value ==> !IsWithin(anchors[j].anchorPath, p)
    ensures r.None? ==> forall j :: 0 <= j < |anchors| ==> !IsWithin(anchors[j].anchorPath, p)
  {
    if anchors == [] then None
    else if IsWithin(anchors[0].anchorPath, p) then Some(0)
    else match FirstCovering(anchors[1..], p) case None => None case Some(i) => Some(i + 1)
  }

  function Claiming(anchors: seq<AnchorRoute>, p: Path): seq<AnchorRoute> {
    if anchors == [] then []
    else (if IsWithin(anchors[0].remoteRoot, p) then [anchors[0]] else []) + Claiming(anchors[1..], p)
  }

  function NodesOf(anchors: seq<AnchorRoute>): (r: seq<NodeId>)
    ensures |r| == |anchors| && forall i :: 0 <= i < |r| ==> r[i] == anchors[i].node
  {
    seq(|anchors|, i requires 0 <= i < |anchors| => anchors[i].node)
  }

  function ClassifyAbsolute(absolute: Path, anchors: seq<AnchorRoute>): Route {
    match FirstCovering(anchors, absolute)
    case Some(i) =>
      var a := anchors[i];
      Remote(a.node, Join(a.remoteRoot, if |a.anchorPath| <= |absolute| then absolute[|a.anchorPath|..] else ""))
    case None =>
      var claiming := Claiming(anchors, absolute);
      if |claiming| == 1 then Remote(claiming[0].node, absolute)
      else if |claiming| > 1 then Ambiguous(absolute, NodesOf(claiming))
      else Local
  }

  function Classify(input: Path, cwd: Option<Path>, anchors: seq<AnchorRoute>): Route {
    match ExplicitOf(input)
    case Some((node, path)) => Remote(node, Normalize(path))
    case None => ClassifyAbsolute(ToAbsolute(input, cwd), anchors)
  }

  /** A key classifies as the file it names, whatever anchors there are. */
  lemma KeyClassifiesAsItsFile(node: NodeId, path: Path, cwd: Option<Path>, anchors: seq<AnchorRoute>)
    requires node != "" && ':' !in node && '/' !in node && IsAbsolute(path)
    ensures Classify(ComposeKey(node, path), cwd, anchors) == Remote(node, Normalize(path))
    ensures ParseKey(ComposeKey(node, path)) == Some((node, path))
  {
    KeyRoundTrip(node, path);
    var rest := node + ":" + path;
    assert ComposeKey(node, path)[|PREFIX|..] == rest;
    FirstOfIs(rest, {':', '/'}, |node|);
    assert rest[..|node|] == node && rest[|node| + 1..] == path;
  }

  lemma AbsoluteIsNotExplicit(p: Path)
    requires IsAbsolute(p)
    ensures ExplicitOf(p).None?
  {
  }

  // -------------------------------------------------------------- below an anchor's path

  /** What follows an anchor's path resolves to the segments below it. */
  lemma SuffixResolves(parent: Path, child: Path, root: seq<Path>)
    requires Normal(parent) && Normal(child) && IsWithin(parent, child) && AllPlain(root)
    ensures |parent| <= |child| && SegsOf(parent) <= SegsOf(child)
    ensures Resolve(root, Pieces(child[|parent|..]), false) == root + SegsOf(child)[|SegsOf(parent)|..]
  {
    hide Pieces, Resolve, Normalize, Spell, AllPlain;
    WithinIsSegmentPrefix(parent, child);
    NormalIsRendered(parent);
    NormalIsRendered(child);
    var ps, cs := SegsOf(parent), SegsOf(child);
    var below := cs[|ps|..];
    PlainBelow(cs, |ps|);
    SpellSplits(ps, below);
    assert ps + below == cs;
    var tail := if cs == [] || EndsInSlash(child) then "/" else "";
    RenderedAs(cs, EndsInSlash(child));
    RenderedAs(ps, EndsInSlash(parent));
    assert child == Spell(ps) + (Spell(below) + tail);
    var slash := if ps == [] || EndsInSlash(parent) then "/" else "";
    assert parent == Spell(ps) + slash;
    PiecesOfSpell(below, tail);
    ResolvesBelow(root, below, tail);
    if slash == "" {
      assert child[|parent|..] == Spell(below) + tail;
    } else {
      StartsWithSlash(below, tail);
      var suffix := child[|parent|..];
      assert suffix == (Spell(below) + tail)[1..];
      assert Spell(below) + tail == ['/'] + suffix;
      PiecesCons('/', suffix);
      ResolveConcat(root, [""], Pieces(suffix), false);
      ResolveSkips(root, false);
    }
  }

  lemma PlainBelow(cs: seq<Path>, n: nat)
    requires AllPlain(cs) && n <= |cs|
    ensures AllPlain(cs[n..])
  {
  }

  lemma {:induction false} SpellSplits(a: seq<Path>, b: seq<Path>)
    ensures Spell(a + b) == Spell(a) + Spell(b)
    decreases |a|
  {
    if a == [] {
      assert a + b == b;
    } else {
      assert (a + b)[1..] == a[1..] + b;
      SpellSplits(a[1..], b);
    }
  }

  lemma RenderedAs(segs: seq<Path>, slash: bool)
    ensures Render(segs, slash) == Spell(segs) + (if segs == [] || slash then "/" else "")
  {
  }

  lemma ResolvesBelow(root: seq<Path>, below: seq<Path>, tail: Path)
    requires AllPlain(below)
    ensures Resolve(root, [""] + below + (if tail == "/" then [""] else []), false) == root + below
  {
    hide Resolve, AllPlain;
    var last := if tail == "/" then [""] else [];
    ResolveConcat(root, [""] + below, last, false);
    ResolveConcat(root, [""], below, false);
    ResolveSkips(root, false);
    ResolvePlain(root, below, false);
    ResolveSkips(root + below, false);
  }

  lemma StartsWithSlash(below: seq<Path>, tail: Path)
    requires AllPlain(below) && (tail == "" || tail == "/")
    ensures Spell(below) + tail != "" ==> (Spell(below) + tail)[0] == '/'
  {
  }

  /** Joining a suffix to a root renders the root's segments and those of the suffix. */
  lemma JoinRenders(root: Path, suffix: Path)
    requires Normal(root)
    ensures Normal(Join(root, suffix))
    ensures SegsOf(Join(root, suffix)) == if suffix == "" then SegsOf(root) else Resolve(SegsOf(root), Pieces(suffix), false)
    ensures suffix != "" && SegsOf(Join(root, suffix)) != [] ==> (EndsInSlash(Join(root, suffix)) <==> EndsInSlash(suffix))
    ensures suffix == "" ==> Join(root, suffix) == root
  {
    hide Pieces, Resolve, Normalize;
    if suffix == "" {
      assert Join(root, suffix) == root by { NormalizesToItself(root); }
    } else {
      var p := root + "/" + suffix;
      NormalizeRenders(p);
      PiecesOfConcat(root, suffix);
      ResolveConcat([], Pieces(root), Pieces(suffix), false);
      SegsOfRender(SegsOf(p), EndsInSlash(p));
      assert p[|p| - 1] == suffix[|suffix| - 1];
    }
  }

  lemma NormalizesToItself(p: Path)
    requires Normal(p)
    ensures Normalize(p) == p
  {
  }

  /**
   * A path below an anchor always lands inside the anchor's remote root, at the same segments
   * below it.
   */
  lemma AnchorMapsInside(absolute: Path, anchors: seq<AnchorRoute>)
    requires Normal(absolute) && FirstCovering(anchors, absolute).Some?
    requires Placed(anchors[FirstCovering(anchors, absolute).value])
    ensures var a := anchors[FirstCovering(anchors, absolute).value];
      var route := ClassifyAbsolute(absolute, anchors);
      && route.Remote? && route.node == a.node && Normal(route.path)
      && SegsOf(a.anchorPath) <= SegsOf(absolute)
      && SegsOf(route.path) == SegsOf(a.remoteRoot) + SegsOf(absolute)[|SegsOf(a.anchorPath)|..]
      && IsWithin(a.remoteRoot, route.path)
  {
    hide Pieces, Resolve, Normalize, Spell, Join;
    var a := anchors[FirstCovering(anchors, absolute).value];
    NormalIsRendered(a.remoteRoot);
    SuffixResolves(a.anchorPath, absolute, SegsOf(a.remoteRoot));
    var suffix := absolute[|a.anchorPath|..];
    JoinRenders(a.remoteRoot, suffix);
    var mapped := Join(a.remoteRoot, suffix);
    if suffix == "" {
      NothingBelow(a.anchorPath, absolute);
      assert SegsOf(a.remoteRoot) + [] == SegsOf(a.remoteRoot);
    } else {
      MappedIsInside(a.anchorPath, absolute, a.remoteRoot, mapped);
    }
  }

  lemma NothingBelow(parent: Path, child: Path)
    requires IsWithin(parent, child) && |parent| <= |child| && child[|parent|..] == ""
    ensures child == parent
  {
  }

  /** With the root's segments in front, and a slash only where the original had one. */
  lemma MappedIsInside(parent: Path, child: Path, root: Path, mapped: Path)
    requires Normal(parent) && Normal(child) && Normal(root) && Normal(mapped)
    requires IsWithin(parent, child) && |parent| < |child| && SegsOf(parent) <= SegsOf(child)
    requires SegsOf(mapped) == SegsOf(root) + SegsOf(child)[|SegsOf(parent)|..]
    requires SegsOf(mapped) != [] ==> (EndsInSlash(mapped) <==> EndsInSlash(child[|parent|..]))
    ensures IsWithin(root, mapped)
  {
    hide Pieces, Resolve, Normalize, Spell;
    WithinIsSegmentPrefix(root, mapped);
    WithinIsSegmentPrefix(parent, child);
    NormalIsRendered(mapped);
    NormalIsRendered(parent);
    NormalIsRendered(child);
    if SegsOf(root) == SegsOf(mapped) && EndsInSlash(root) {
      assert SegsOf(child) == SegsOf(parent);
      RenderedAs(SegsOf(child), EndsInSlash(child));
      RenderedAs(SegsOf(parent), EndsInSlash(parent));
      assert EndsInSlash(child);
      assert child[|parent|..][|child| - |parent| - 1] == '/';
      if SegsOf(mapped) == [] { RenderedAs([], EndsInSlash(mapped)); }
    }
  }

  // ------------------------------------------------------------------- claims on a path

  ghost predicate Claims(anchors: seq<AnchorRoute>, p: Path, i: int) {
    0 <= i < |anchors| && IsWithin(anchors[i].remoteRoot, p)
  }

  ghost predicate Alone(anchors: seq<AnchorRoute>, p: Path, i: int) {
    Claims(anchors, p, i) && forall j :: Claims(anchors, p, j) ==> j == i
  }

  ghost predicate Contested(anchors: seq<AnchorRoute>, p: Path) {
    exists i, j :: i < j && Claims(anchors, p, i) && Claims(anchors, p, j)
  }

  /** Nobody claims the path, one anchor alone does, or two do. */
  lemma {:induction false} ClaimingCounts(anchors: seq<AnchorRoute>, p: Path)
    ensures |Claiming(anchors, p)| == 0 ==> forall i :: !Claims(anchors, p, i)
    ensures |Claiming(anchors, p)| == 1 ==> exists i :: Alone(anchors, p, i) && Claiming(anchors, p) == [anchors[i]]
    ensures |Claiming(anchors, p)| > 1 ==> Contested(anchors, p)
  {
    hide IsWithin;
    if anchors != [] {
      var rest := anchors[1..];
      ClaimingCounts(rest, p);
      ClaimsShift(anchors, p);
      if |Claiming(rest, p)| == 1 {
        var i :| Alone(rest, p, i) && Claiming(rest, p) == [rest[i]];
        assert Claims(anchors, p, i + 1) && anchors[i + 1] == rest[i];
        if Claims(anchors, p, 0) { assert 0 < i + 1; } else { assert Alone(anchors, p, i + 1); }
      } else if |Claiming(rest, p)| > 1 {
        var i, j :| i < j && Claims(rest, p, i) && Claims(rest, p, j);
        assert Claims(anchors, p, i + 1) && Claims(anchors, p, j + 1);
      } else if Claims(anchors, p, 0) {
        assert Alone(anchors, p, 0) && Claiming(anchors, p) == [anchors[0]];
      }
    }
  }

  lemma {:induction false} ClaimingHolds(anchors: seq<AnchorRoute>, p: Path)
    ensures forall a :: a in Claiming(anchors, p) ==> exists i :: Claims(anchors, p, i) && anchors[i] == a
    ensures forall i :: Claims(anchors, p, i) ==> anchors[i] in Claiming(anchors, p)
  {
    hide IsWithin;
    if anchors != [] {
      ClaimingHolds(anchors[1..], p);
      ClaimsShift(anchors, p);
      forall a | a in Claiming(anchors, p) ensures exists i :: Claims(anchors, p, i) && anchors[i] == a {
        if a in Claiming(anchors[1..], p) {
          var i :| Claims(anchors[1..], p, i) && anchors[1..][i] == a;
          assert Claims(anchors, p, i + 1) && anchors[i + 1] == a;
        } else {
          assert Claims(anchors, p, 0) && anchors[0] == a;
        }
      }
      forall i | Claims(anchors, p, i) ensures anchors[i] in Claiming(anchors, p) {
        if i > 0 { assert anchors[1..][i - 1] == anchors[i]; }
      }
    }
  }

  lemma ClaimsShift(anchors: seq<AnchorRoute>, p: Path)
    requires anchors != []
    ensures forall i :: Claims(anchors[1..], p, i) ==> Claims(anchors, p, i + 1)
    ensures forall i :: Claims(anchors, p, i) ==> i == 0 || Claims(anchors[1..], p, i - 1)
  {
  }

  /**
   * A path below no anchor is remote only when exactly one anchor's root claims it, ambiguous
   * when two do, and local when none does.
   */
  lemma RemoteNeedsOneClaimant(absolute: Path, anchors: seq<AnchorRoute>)
    requires FirstCovering(anchors, absolute).None?
    ensures var route := ClassifyAbsolute(absolute, anchors);
      && (route.Local? <==> forall i :: !Claims(anchors, absolute, i))
      && (route.Remote? <==> exists i :: Alone(anchors, absolute, i))
      && (route.Remote? ==> route.path == absolute && forall i :: Claims(anchors, absolute, i) ==> route.node == anchors[i].node)
      && (route.Ambiguous? <==> Contested(anchors, absolute))
      && (route.Ambiguous? ==>
            && route.path == absolute
            && forall node :: node in route.nodes <==> exists i :: Claims(anchors, absolute, i) && anchors[i].node == node)
  {
    hide IsWithin, Claiming;
    ClaimingCounts(anchors, absolute);
    ClaimingHolds(anchors, absolute);
    var claiming := Claiming(anchors, absolute);
    forall node | node in NodesOf(claiming) ensures exists i :: Claims(anchors, absolute, i) && anchors[i].node == node {
      var k :| 0 <= k < |claiming| && NodesOf(claiming)[k] == node;
      assert claiming[k] in claiming;
    }
    forall i | Claims(anchors, absolute, i) ensures anchors[i].node in NodesOf(claiming) {
      var k :| 0 <= k < |claiming| && claiming[k] == anchors[i];
      assert NodesOf(claiming)[k] == anchors[i].node;
    }
  }

  // -------------------------------------------------------------- two spellings of a file

  predicate Canonical(p: Path) { Normal(p) && (SegsOf(p) == [] || !EndsInSlash(p)) }

  /**
   * A file below an anchor, spelled below the anchor's own path and spelled below its remote
   * root. The first spelling names the second; where no anchor's path covers the second, the
   * two classify alike exactly when one anchor alone claims it.
   */
  lemma SpellingsAgree(anchors: seq<AnchorRoute>, i: nat, below: seq<Path>, slash: bool, cwd: Option<Path>)
    requires i < |anchors| && Canonical(anchors[i].anchorPath) && Canonical(anchors[i].remoteRoot) && AllPlain(below)
    requires slash ==> SegsOf(anchors[i].anchorPath) + below != []
    requires var here := Render(SegsOf(anchors[i].anchorPath) + below, slash);
             '\\' !in here && FirstCovering(anchors, here) == Some(i)
    requires var there := Render(SegsOf(anchors[i].remoteRoot) + below, slash);
             '\\' !in there && FirstCovering(anchors, there).None?
    ensures var here, there := Render(SegsOf(anchors[i].anchorPath) + below, slash), Render(SegsOf(anchors[i].remoteRoot) + below, slash);
      && Classify(here, cwd, anchors) == Remote(anchors[i].node, there)
      && (Classify(there, cwd, anchors) == Classify(here, cwd, anchors) <==> |Claiming(anchors, there)| == 1)
  {
    hide Pieces, Resolve, Normalize, Spell, Join, Claiming, FirstCovering;
    var a := anchors[i];
    var ps, rs := SegsOf(a.anchorPath), SegsOf(a.remoteRoot);
    var here, there := Render(ps + below, slash), Render(rs + below, slash);
    NormalIsRendered(a.anchorPath);
    NormalIsRendered(a.remoteRoot);
    AnchorSpellingMaps(a, below, slash);
    SpellingIsItsOwn(ps + below, slash, cwd, anchors);
    SpellingIsItsOwn(rs + below, slash, cwd, anchors);
    OneClaimantIsIt(anchors, i, there);
  }

  lemma SpellingIsItsOwn(segs: seq<Path>, slash: bool, cwd: Option<Path>, anchors: seq<AnchorRoute>)
    requires AllPlain(segs) && '\\' !in Render(segs, slash)
    ensures Classify(Render(segs, slash), cwd, anchors) == ClassifyAbsolute(Render(segs, slash), anchors)
  {
    RenderIsNormal(segs, slash);
    AbsoluteIsNotExplicit(Render(segs, slash));
    NormalIsItsOwn(Render(segs, slash), cwd);
  }

  /** Joining what follows the anchor's path to the remote root gives the other spelling. */
  lemma AnchorSpellingMaps(a: AnchorRoute, below: seq<Path>, slash: bool)
    requires Canonical(a.anchorPath) && Canonical(a.remoteRoot) && AllPlain(below)
    requires AllPlain(SegsOf(a.anchorPath)) && AllPlain(SegsOf(a.remoteRoot))
    requires slash ==> SegsOf(a.anchorPath) + below != []
    ensures var here := Render(SegsOf(a.anchorPath) + below, slash);
      && |a.anchorPath| <= |here|
      && Join(a.remoteRoot, here[|a.anchorPath|..]) == Render(SegsOf(a.remoteRoot) + below, slash)
      && IsWithin(a.remoteRoot, Render(SegsOf(a.remoteRoot) + below, slash))
  {
    hide Pieces, Resolve, Normalize, Spell, Join, IsWithin;
    var ps, rs := SegsOf(a.anchorPath), SegsOf(a.remoteRoot);
    var here := Render(ps + below, slash);
    BelowIsWithin(a.anchorPath, below, slash);
    BelowIsWithin(a.remoteRoot, below, slash);
    RenderIsNormal(ps + below, slash);
    SegsOfRender(ps + below, slash);
    SuffixResolves(a.anchorPath, here, rs);
    assert (ps + below)[|ps|..] == below;
    var suffix := here[|a.anchorPath|..];
    JoinRenders(a.remoteRoot, suffix);
    NormalIsRendered(Join(a.remoteRoot, suffix));
    NormalIsRendered(a.remoteRoot);
    if suffix == "" {
      NothingBelow(a.anchorPath, here);
      assert ps + below == ps;
      assert below == [] && rs + below == rs;
    } else {
      assert here[|here| - 1] == suffix[|suffix| - 1];
    }
  }

  /** What is spelled below a canonical path is within it. */
  lemma BelowIsWithin(parent: Path, below: seq<Path>, slash: bool)
    requires Canonical(parent) && AllPlain(SegsOf(parent)) && AllPlain(below)
    ensures IsWithin(parent, Render(SegsOf(parent) + below, slash))
  {
    hide Pieces, Resolve, Normalize, Spell, IsWithin;
    var segs := SegsOf(parent) + below;
    RenderIsNormal(segs, slash);
    SegsOfRender(segs, slash);
    WithinIsSegmentPrefix(parent, Render(segs, slash));
    NormalIsRendered(parent);
    RenderedAs(SegsOf(parent), EndsInSlash(parent));
    assert SegsOf(parent) <= segs;
  }

  lemma OneClaimantIsIt(anchors: seq<AnchorRoute>, i: nat, there: Path)
    requires i < |anchors| && IsWithin(anchors[i].remoteRoot, there) && FirstCovering(anchors, there).None?
    ensures ClassifyAbsolute(there, anchors) == Remote(anchors[i].node, there) <==> |Claiming(anchors, there)| == 1
  {
    hide IsWithin, Claiming;
    ClaimingCounts(anchors, there);
    assert Claims(anchors, there, i);
  }
}
