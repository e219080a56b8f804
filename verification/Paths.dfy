/** POSIX paths as strings and as lists of segments: splitting, normalizing, containment. */
module Paths {
  type Path = seq<char>

  predicate EndsInSlash(p: Path) { p != "" && p[|p| - 1] == '/' }

  /** The pieces between slashes, empty ones included. */
  function Pieces(p: Path): (r: seq<Path>)
    ensures |r| >= 1 && forall s :: s in r ==> '/' !in s
  {
    if p == "" then [""]
    else
      var rest := Pieces(p[1..]);
      if p[0] == '/' then [""] + rest else [[p[0]] + rest[0]] + rest[1..]
  }

  /** One piece of a path against the segments before it; `above` keeps a leading `..`. */
  function Enter(acc: seq<Path>, piece: Path, above: bool): seq<Path> {
    if piece == "" || piece == "." then acc
    else if piece == ".." then
      if acc != [] && acc[|acc| - 1] != ".." then acc[..|acc| - 1] else if above then acc + [piece] else acc
    else acc + [piece]
  }

  function Resolve(acc: seq<Path>, pieces: seq<Path>, above: bool): seq<Path>
    decreases |pieces|
  {
    if pieces == [] then acc else Resolve(Enter(acc, pieces[0], above), pieces[1..], above)
  }

  /** A slash before every segment. */
  function Spell(segs: seq<Path>): Path {
    if segs == [] then "" else "/" + segs[0] + Spell(segs[1..])
  }

  /** `posix.normalize`, as the Node.js documentation describes it. */
  function Normalize(p: Path): Path {
    if p == "" then "."
    else
      var absolute, slash := p[0] == '/', EndsInSlash(p);
      var segs := Resolve([], Pieces(p), !absolute);
      if segs == [] then (if absolute then "/" else if slash then "./" else ".")
      else (if absolute then Spell(segs) else Spell(segs)[1..]) + (if slash then "/" else "")
  }

  /** `posix.join` of two arguments. */
  function Join(a: Path, b: Path): Path {
    if a == "" then Normalize(b) else if b == "" then Normalize(a) else Normalize(a + "/" + b)
  }

  // --------------------------------------------------------------- absolute normal paths

  predicate Plain(seg: Path) { seg != "" && seg != "." && seg != ".." && '/' !in seg }

  predicate AllPlain(segs: seq<Path>) { forall s :: s in segs ==> Plain(s) }

  /** The absolute path with these segments, perhaps with a trailing slash. */
  function Render(segs: seq<Path>, slash: bool): Path {
    if segs == [] then "/" else Spell(segs) + (if slash then "/" else "")
  }

  function SegsOf(p: Path): seq<Path> { Resolve([], Pieces(p), false) }

  /** An absolute path that normalizing leaves alone. */
  predicate Normal(p: Path) { p != "" && p[0] == '/' && Normalize(p) == p }

  // ------------------------------------------------------------------------- splitting

  lemma PiecesCons(c: char, p: Path)
    ensures Pieces([c] + p) == if c == '/' then [""] + Pieces(p) else [[c] + Pieces(p)[0]] + Pieces(p)[1..]
  {
  }

  lemma {:induction false} PiecesOfConcat(a: Path, b: Path)
    ensures Pieces(a + "/" + b) == Pieces(a) + Pieces(b)
  {
    hide Pieces;
    if a == "" {
      assert a + "/" + b == ['/'] + b;
      PiecesCons('/', b);
      PiecesOfNothing();
    } else {
      var q := a[1..] + "/" + b;
      assert a + "/" + b == [a[0]] + q && a == [a[0]] + a[1..];
      PiecesOfConcat(a[1..], b);
      PiecesCons(a[0], q);
      PiecesCons(a[0], a[1..]);
      FirstPieceGrows(Pieces(a[1..]), Pieces(b), a[0]);
    }
  }

  lemma PiecesOfNothing()
    ensures Pieces("") == [""]
  {
  }

  lemma FirstPieceGrows(first: seq<Path>, second: seq<Path>, c: char)
    requires |first| >= 1
    ensures [""] + (first + second) == ([""] + first) + second
    ensures [[c] + (first + second)[0]] + (first + second)[1..] == ([[c] + first[0]] + first[1..]) + second
  {
  }

  lemma {:induction false} PiecesOfSegment(s: Path)
    requires '/' !in s
    ensures Pieces(s) == [s]
  {
    if s != "" {
      PiecesOfSegment(s[1..]);
      assert [s[0]] + s[1..] == s;
    }
  }

  /** A segment is a piece of its own when a slash or nothing follows. */
  lemma SegmentFirst(seg: Path, rest: Path)
    requires '/' !in seg && (rest == "" || rest[0] == '/')
    ensures Pieces(seg + rest) == [seg] + Pieces(rest)[1..]
  {
    PiecesOfSegment(seg);
    if rest == "" {
      assert seg + rest == seg;
    } else {
      var more := rest[1..];
      assert rest == ['/'] + more && seg + rest == seg + "/" + more;
      PiecesCons('/', more);
      PiecesOfConcat(seg, more);
    }
  }

  lemma SpellCons(segs: seq<Path>, tail: Path)
    requires segs != [] && AllPlain(segs) && (tail == "" || tail == "/")
    ensures var rest := Spell(segs[1..]) + tail;
      && Spell(segs) + tail == ['/'] + (segs[0] + rest)
      && (rest == "" || rest[0] == '/') && Plain(segs[0]) && AllPlain(segs[1..])
  {
  }

  lemma {:induction false} PiecesOfSpell(segs: seq<Path>, tail: Path)
    requires AllPlain(segs) && (tail == "" || tail == "/")
    ensures Pieces(Spell(segs) + tail) == [""] + segs + (if tail == "/" then [""] else [])
    decreases |segs|
  {
    hide Pieces, Spell, AllPlain;
    var last := if tail == "/" then [""] else [];
    PiecesOfNothing();
    if segs == [] {
      SpellNothing();
      assert Spell(segs) + tail == tail && (tail == "/" ==> tail == ['/'] + "");
      PiecesCons('/', "");
    } else {
      var seg, rest := segs[0], Spell(segs[1..]) + tail;
      SpellCons(segs, tail);
      PiecesOfSpell(segs[1..], tail);
      SegmentFirst(seg, rest);
      PiecesCons('/', seg + rest);
      SegmentsGrow(segs, last);
    }
  }

  lemma SpellNothing()
    ensures Spell([]) == ""
  {
  }

  lemma SegmentsGrow(segs: seq<Path>, last: seq<Path>)
    requires segs != []
    ensures [""] + ([segs[0]] + ([""] + segs[1..] + last)[1..]) == [""] + segs + last
  {
    assert ([""] + segs[1..] + last)[1..] == segs[1..] + last;
    assert [segs[0]] + (segs[1..] + last) == segs + last;
  }

  // ------------------------------------------------------------------------- resolving

  lemma {:induction false} ResolveConcat(acc: seq<Path>, a: seq<Path>, b: seq<Path>, above: bool)
    ensures Resolve(acc, a + b, above) == Resolve(Resolve(acc, a, above), b, above)
    decreases |a|
  {
    hide Enter;
    if a == [] {
      assert a + b == b;
    } else {
      assert (a + b)[1..] == a[1..] + b;
      ResolveConcat(Enter(acc, a[0], above), a[1..], b, above);
    }
  }

  lemma {:induction false} ResolvePlain(acc: seq<Path>, segs: seq<Path>, above: bool)
    requires AllPlain(segs)
    ensures Resolve(acc, segs, above) == acc + segs
    decreases |segs|
  {
    if segs == [] {
      assert acc + segs == acc;
    } else {
      assert segs[0] in segs;
      ResolvePlain(acc + [segs[0]], segs[1..], above);
      assert acc + [segs[0]] + segs[1..] == acc + segs;
    }
  }

  lemma ResolveSkips(acc: seq<Path>, above: bool)
    ensures Resolve(acc, [""], above) == acc && Resolve(acc, [], above) == acc
  {
  }

  lemma {:induction false} ResolvedIsPlain(acc: seq<Path>, pieces: seq<Path>)
    requires AllPlain(acc) && forall s :: s in pieces ==> '/' !in s
    ensures AllPlain(Resolve(acc, pieces, false))
    decreases |pieces|
  {
    if pieces != [] {
      assert pieces[0] in pieces;
      ResolvedIsPlain(Enter(acc, pieces[0], false), pieces[1..]);
    }
  }

  /** A rendered path splits back into its segments. */
  lemma SegsOfRender(segs: seq<Path>, slash: bool)
    requires AllPlain(segs)
    ensures SegsOf(Render(segs, slash)) == segs
    ensures segs != [] ==> (EndsInSlash(Render(segs, slash)) <==> slash)
  {
    hide Enter, Pieces, Resolve;
    var tail := if segs == [] || slash then "/" else "";
    assert Render(segs, slash) == Spell(segs) + tail;
    PiecesOfSpell(segs, tail);
    var last := if tail == "/" then [""] else [];
    ResolveConcat([], [""] + segs, last, false);
    ResolveConcat([], [""], segs, false);
    ResolveSkips([], false);
    ResolvePlain([], segs, false);
    ResolveSkips(segs, false);
    assert [] + segs == segs;
    if segs != [] { SpellEnds(segs); }
  }

  lemma {:induction false} SpellEnds(segs: seq<Path>)
    requires segs != [] && AllPlain(segs)
    ensures Spell(segs) != "" && Spell(segs)[0] == '/' && !EndsInSlash(Spell(segs))
    decreases |segs|
  {
    assert segs[0] in segs;
    if |segs| > 1 { SpellEnds(segs[1..]); } else { assert segs[1..] == []; }
  }

  /** Normalizing an absolute path renders its segments; what comes out is normal. */
  lemma NormalizeRenders(p: Path)
    requires p != "" && p[0] == '/'
    ensures AllPlain(SegsOf(p)) && Normalize(p) == Render(SegsOf(p), EndsInSlash(p))
    ensures Normal(Normalize(p))
  {
    hide Pieces, Resolve;
    ResolvedIsPlain([], Pieces(p));
    RenderIsNormal(SegsOf(p), EndsInSlash(p));
  }

  lemma RenderIsNormal(segs: seq<Path>, slash: bool)
    requires AllPlain(segs)
    ensures Normal(Render(segs, slash))
  {
    hide Pieces, Resolve;
    SegsOfRender(segs, slash);
    if segs != [] { SpellEnds(segs); }
  }

  /** Normal absolute paths are exactly the rendered ones. */
  lemma NormalIsRendered(p: Path)
    requires Normal(p)
    ensures AllPlain(SegsOf(p)) && p == Render(SegsOf(p), EndsInSlash(p))
  {
    NormalizeRenders(p);
  }

  // ------------------------------------------------------- what resolving strikes out

  /** Empty pieces and single dots may be struck out, and a plain segment with the `..` after it. */
  lemma StrikeOut(before: seq<Path>, seg: Path, after: seq<Path>, above: bool)
    requires Plain(seg)
    ensures Resolve([], before + [seg, ".."] + after, above) == Resolve([], before + after, above)
    ensures Resolve([], before + [""] + after, above) == Resolve([], before + after, above)
    ensures Resolve([], before + ["."] + after, above) == Resolve([], before + after, above)
  {
    hide Resolve, Enter;
    var acc := Resolve([], before, above);
    ResolveConcat([], before, after, above);
    ResolveConcat([], before + [seg, ".."], after, above);
    ResolveConcat([], before, [seg, ".."], above);
    StruckOut(acc, seg, above);
    ResolveConcat([], before + [""], after, above);
    ResolveConcat([], before, [""], above);
    ResolveConcat([], before + ["."], after, above);
    ResolveConcat([], before, ["."], above);
  }

  lemma StruckOut(acc: seq<Path>, seg: Path, above: bool)
    requires Plain(seg)
    ensures Resolve(acc, [seg, ".."], above) == acc && Resolve(acc, [""], above) == acc && Resolve(acc, ["."], above) == acc
  {
    assert [seg, ".."][1..] == [".."] && (acc + [seg])[..|acc|] == acc;
    assert Resolve(acc, [seg, ".."], above) == Resolve(acc + [seg], [".."], above);
    assert Enter(acc + [seg], "..", above) == acc;
  }

  /** At the root `..` vanishes; at the start of a relative path it stays. */
  lemma {:induction false} LeadingUps(ups: nat, segs: seq<Path>)
    requires AllPlain(segs)
    ensures Resolve([], Ups(ups) + segs, false) == segs
    ensures Resolve([], Ups(ups) + segs, true) == Ups(ups) + segs
  {
    hide Enter;
    ResolveConcat([], Ups(ups), segs, false);
    ResolveConcat([], Ups(ups), segs, true);
    UpsResolve([], ups);
    ResolvePlain([], segs, false);
    ResolvePlain(Ups(ups), segs, true);
    assert [] + segs == segs && [] + Ups(ups) == Ups(ups);
  }

  function Ups(n: nat): seq<Path> { if n == 0 then [] else [".."] + Ups(n - 1) }

  lemma {:induction false} UpsResolve(acc: seq<Path>, n: nat)
    requires acc == [] || acc[|acc| - 1] == ".."
    ensures Resolve([], Ups(n), false) == []
    ensures Resolve(acc, Ups(n), true) == acc + Ups(n)
    decreases n
  {
    if n == 0 {
      assert acc + [] == acc;
    } else {
      assert Ups(n)[1..] == Ups(n - 1);
      UpsResolve(acc + [".."], n - 1);
      assert acc + [".."] + Ups(n - 1) == acc + Ups(n);
    }
  }

  /** The same of absolute paths as strings. */
  lemma SegmentThenUp(a: Path, seg: Path, b: Path)
    requires Plain(seg)
    ensures SegsOf(a + "/" + seg + "/../" + b) == SegsOf(a + "/" + b)
    ensures SegsOf(a + "//" + b) == SegsOf(a + "/" + b) && SegsOf(a + "/./" + b) == SegsOf(a + "/" + b)
    ensures SegsOf("/../" + b) == SegsOf("/" + b)
  {
    hide Pieces, Resolve;
    PiecesOfConcat(a, b);
    UpOut(a, seg, b);
    StrikeOut(Pieces(a), seg, Pieces(b), false);
    assert a + "//" + b == a + "/" + "" + "/" + b && a + "/./" + b == a + "/" + "." + "/" + b;
    PiecesOfNothing();
    PiecesOfSegment(".");
    PieceBetween(a, "", b);
    PieceBetween(a, ".", b);
    UpsAtRoot(b);
  }

  lemma PieceBetween(a: Path, piece: Path, b: Path)
    requires Pieces(piece) == [piece]
    ensures Pieces(a + "/" + piece + "/" + b) == Pieces(a) + [piece] + Pieces(b)
  {
    hide Pieces;
    PiecesOfConcat(a, piece);
    PiecesOfConcat(a + "/" + piece, b);
  }

  lemma UpOut(a: Path, seg: Path, b: Path)
    requires Plain(seg)
    ensures Pieces(a + "/" + seg + "/../" + b) == Pieces(a) + [seg, ".."] + Pieces(b)
  {
    hide Pieces;
    PiecesOfSegment(seg);
    PiecesOfSegment("..");
    PiecesOfConcat(a, seg);
    PieceBetween(a + "/" + seg, "..", b);
    assert a + "/" + seg + "/../" + b == a + "/" + seg + "/" + ".." + "/" + b;
    assert Pieces(a) + [seg] + [".."] + Pieces(b) == Pieces(a) + [seg, ".."] + Pieces(b);
  }

  lemma UpsAtRoot(b: Path)
    ensures SegsOf("/../" + b) == SegsOf("/" + b)
  {
    hide Pieces, Resolve;
    PiecesOfNothing();
    PiecesOfSegment("..");
    PiecesOfConcat("", b);
    PieceBetween("", "..", b);
    assert "/../" + b == "" + "/" + ".." + "/" + b && "/" + b == "" + "/" + b;
    ResolveConcat([], [""], Pieces(b), false);
    ResolveConcat([], [""] + [".."], Pieces(b), false);
    ResolveConcat([], [""], [".."], false);
    ResolveSkips([], false);
    UpsResolve([], 1);
    assert Ups(1) == [".."];
  }

  // ----------------------------------------------------------------------- containment

  /** Whether `child` equals `parent` or lies below it. */
  predicate IsWithin(parent: Path, child: Path) {
    child == parent || (if EndsInSlash(parent) then parent else parent + "/") <= child
  }

  /** Two spellings agree on a first segment only if the whole segments agree. */
  lemma HeadSegment(p: Path, x: Path, c: Path, y: Path)
    requires '/' !in p && '/' !in c && x != "" && x[0] == '/' && (y == "" || y[0] == '/')
    ensures p + x <= c + y <==> p == c && x <= y
  {
    var l, r := p + x, c + y;
    if |p| < |c| {
      assert l[|p|] == '/' && r[|p|] == c[|p|] && c[|p|] in c;
      assert p != c;
    } else if |p| > |c| {
      assert l[|c|] == p[|c|] && p[|c|] in p;
      assert y != "" ==> r[|c|] == '/';
      assert p != c;
    } else {
      assert l[..|p|] == p && r[..|p|] == c && l[|p|..] == x && r[|p|..] == y;
    }
  }

  lemma {:induction false} SlashPrefix(ps: seq<Path>, cs: seq<Path>, tail: Path)
    requires AllPlain(ps) && AllPlain(cs) && (tail == "" || tail == "/")
    ensures Spell(ps) + "/" <= Spell(cs) + tail <==> ps <= cs && (ps == cs ==> tail == "/")
    decreases |ps|
  {
    hide Spell, AllPlain;
    SpellNothing();
    var child := Spell(cs) + tail;
    if ps == [] {
      assert Spell(ps) + "/" == "/";
      if cs != [] { SpellCons(cs, tail); }
    } else if cs == [] {
      SpellCons(ps, "/");
      assert |child| <= 1 && |Spell(ps) + "/"| > 1;
    } else {
      SpellCons(ps, "/");
      SpellCons(cs, tail);
      SlashPrefix(ps[1..], cs[1..], tail);
      var x, y := Spell(ps[1..]) + "/", Spell(cs[1..]) + tail;
      HeadSegment(ps[0], x, cs[0], y);
      PrefixUnderSlash(ps[0] + x, cs[0] + y);
      assert ps == [ps[0]] + ps[1..] && cs == [cs[0]] + cs[1..];
    }
  }

  lemma PrefixUnderSlash(a: Path, b: Path)
    ensures ['/'] + a <= ['/'] + b <==> a <= b
  {
    assert (['/'] + a)[1..] == a && (['/'] + b)[1..] == b;
  }

  /**
   * Containment by string prefix is containment by segments, except that a parent spelled with
   * a trailing slash does not contain itself spelled without one.
   */
  lemma WithinIsSegmentPrefix(parent: Path, child: Path)
    requires Normal(parent) && Normal(child)
    ensures IsWithin(parent, child) <==>
      && SegsOf(parent) <= SegsOf(child)
      && (SegsOf(parent) == SegsOf(child) && EndsInSlash(parent) ==> EndsInSlash(child))
  {
    hide Pieces, Resolve, Normalize;
    NormalIsRendered(parent);
    NormalIsRendered(child);
    var ps, cs := SegsOf(parent), SegsOf(child);
    if ps != [] { SpellEnds(ps); }
    var tail := if cs == [] || EndsInSlash(child) then "/" else "";
    assert child == Spell(cs) + tail;
    SlashPrefix(ps, cs, tail);
    assert Spell(ps) + "" == Spell(ps);
    assert cs == [] ==> EndsInSlash(child);
    assert ps == [] ==> parent == Spell(ps) + "/";
  }
}
