/**
 * The literal edit of the agent's filesystem backend: line endings are normalised to LF,
 * one literal is replaced, and the file's own line-ending style is put back.
 */
module LiteralEdit {
  import opened Prelude

  // ------------------------------------------------------- literal search and replacement

  /** Replace every left-to-right, non-overlapping occurrence of `p`. */
  function Replace(s: string, p: string, r: string): string
    requires p != ""
  {
    if |s| < |p| then s
    else if p <= s then r + Replace(s[|p|..], p, r)
    else [s[0]] + Replace(s[1..], p, r)
  }

  function MatchCount(s: string, p: string): nat
    requires p != ""
  {
    if |s| < |p| then 0
    else if p <= s then 1 + MatchCount(s[|p|..], p)
    else MatchCount(s[1..], p)
  }

  /** The text between the occurrences a left-to-right search consumes. */
  function Pieces(s: string, p: string): (pieces: seq<string>)
    requires p != ""
    ensures pieces != []
  {
    if |s| < |p| then [s]
    else if p <= s then [""] + Pieces(s[|p|..], p)
    else
      var rest := Pieces(s[1..], p);
      [[s[0]] + rest[0]] + rest[1..]
  }

  function Join(pieces: seq<string>, between: string): string
    requires pieces != []
  {
    if |pieces| == 1 then pieces[0]
    else pieces[0] + between + Join(pieces[1..], between)
  }

  predicate OccursAt(s: string, p: string, at: nat) { at <= |s| && p <= s[at..] }

  ghost predicate Absent(s: string, p: string) {
    forall at :: 0 <= at <= |s| ==> !OccursAt(s, p, at)
  }

  /** No occurrence of `p` starts inside a piece: each search stops at the first one. */
  ghost predicate Leftmost(pieces: seq<string>, p: string) {
    forall k, at {:trigger OccursAt(pieces[k] + p, p, at)} :: 0 <= k < |pieces| - 1 && 0 <= at < |pieces[k]| ==>
      !OccursAt(pieces[k] + p, p, at)
  }

  /** Where the literal matches, the search consumes it. */
  lemma SearchTakes(s: string, p: string, r: string)
    requires p != "" && p <= s
    ensures Replace(s, p, r) == r + Replace(s[|p|..], p, r)
    ensures Pieces(s, p) == [""] + Pieces(s[|p|..], p)
    ensures MatchCount(s, p) == 1 + MatchCount(s[|p|..], p)
  {
  }

  /** Wherever the literal does not match, the search passes one character through. */
  lemma SearchSkips(s: string, p: string, r: string)
    requires p != "" && s != "" && !(p <= s)
    ensures Replace(s, p, r) == [s[0]] + Replace(s[1..], p, r)
    ensures Pieces(s, p) == [[s[0]] + Pieces(s[1..], p)[0]] + Pieces(s[1..], p)[1..]
    ensures MatchCount(s, p) == MatchCount(s[1..], p)
  {
  }

  lemma SearchEnds(p: string, r: string)
    requires p != ""
    ensures Replace("", p, r) == "" && Pieces("", p) == [""] && MatchCount("", p) == 0
  {
  }

  lemma {:induction false} JoinPieces(s: string, p: string, r: string)
    requires p != ""
    ensures Join(Pieces(s, p), r) == Replace(s, p, r)
  {
    hide Replace, Pieces;
    if s == "" {
      SearchEnds(p, r);
    } else if p <= s {
      SearchTakes(s, p, r);
      JoinPieces(s[|p|..], p, r);
      assert Pieces(s, p)[1..] == Pieces(s[|p|..], p);
    } else {
      SearchSkips(s, p, r);
      JoinPieces(s[1..], p, r);
      JoinFirst(s[0], Pieces(s[1..], p), r);
    }
  }

  lemma {:induction false} ReplaceBySelf(s: string, p: string)
    requires p != ""
    ensures Replace(s, p, p) == s && |Pieces(s, p)| == MatchCount(s, p) + 1
  {
    if |s| < |p| {
    } else if p <= s {
      ReplaceBySelf(s[|p|..], p);
      assert s == p + s[|p|..];
    } else {
      ReplaceBySelf(s[1..], p);
      assert s == [s[0]] + s[1..];
    }
  }

  /**
   * Replacement keeps every piece between the matches, puts `r` where each match was, and
   * nothing else; the matches are the ones a left-to-right search finds.
   */
  lemma ReplaceKeepsPieces(s: string, p: string, r: string)
    requires p != ""
    ensures Join(Pieces(s, p), r) == Replace(s, p, r)
    ensures Join(Pieces(s, p), p) == s
    ensures |Pieces(s, p)| == MatchCount(s, p) + 1
  {
    JoinPieces(s, p, r);
    JoinPieces(s, p, p);
    ReplaceBySelf(s, p);
  }

  lemma JoinFirst(c: char, pieces: seq<string>, between: string)
    requires pieces != []
    ensures Join([[c] + pieces[0]] + pieces[1..], between) == [c] + Join(pieces, between)
  {
  }

  lemma {:induction false} PiecesAreLeftmost(s: string, p: string)
    requires p != ""
    ensures Leftmost(Pieces(s, p), p)
    ensures Absent(Pieces(s, p)[|Pieces(s, p)| - 1], p)
  {
    hide Pieces, Replace, MatchCount;
    var pieces := Pieces(s, p);
    if s == "" {
      SearchEnds(p, p);
    } else if p <= s {
      SearchTakes(s, p, p);
      var rest := Pieces(s[|p|..], p);
      PiecesAreLeftmost(s[|p|..], p);
      forall k, at | 0 <= k < |pieces| - 1 && 0 <= at < |pieces[k]|
        ensures !OccursAt(pieces[k] + p, p, at)
      {
        assert pieces[k] == rest[k - 1];
      }
    } else {
      SearchSkips(s, p, p);
      var rest := Pieces(s[1..], p);
      PiecesAreLeftmost(s[1..], p);
      FirstPieceIsPrefix(s, p);
      if |pieces| == 1 {
        SkippingStaysAbsent(s[0], rest[0], p, rest[0]);
      } else {
        forall k, at | 0 <= k < |pieces| - 1 && 0 <= at < |pieces[k]|
          ensures !OccursAt(pieces[k] + p, p, at)
        {
          if k > 0 {
            assert !OccursAt(rest[k] + p, p, at);
          } else {
            SkippingStaysAbsent(s[0], rest[0], p, rest[0] + p);
            assert pieces[0] + p == [s[0]] + (rest[0] + p);
          }
        }
      }
    }
  }

  /** The text starts with its first piece, followed by the literal unless it is the only piece. */
  lemma FirstPieceIsPrefix(s: string, p: string)
    requires p != ""
    ensures var pieces := Pieces(s, p);
            if |pieces| == 1 then pieces[0] == s else pieces[0] + p <= s
  {
  }

  /** Prepending a character that starts no occurrence moves every later one by one place. */
  lemma SkippingStaysAbsent(c: char, piece: string, p: string, text: string)
    requires p != "" && piece <= text && !(p <= [c] + text)
    requires forall at :: 0 <= at < |piece| ==> !OccursAt(text, p, at)
    requires piece == text ==> Absent(text, p)
    ensures forall at :: 0 <= at <= |piece| ==> !OccursAt([c] + text, p, at)
    ensures piece == text ==> Absent([c] + text, p)
  {
    forall at | 0 <= at <= |piece| || (piece == text && at == |piece| + 1)
      ensures !OccursAt([c] + text, p, at)
    {
      if at > 0 {
        assert ([c] + text)[at..] == text[at - 1..];
        assert !OccursAt(text, p, at - 1);
      }
    }
  }

  /** The counted search finds nothing exactly when the literal occurs nowhere. */
  lemma {:induction false} NoMatchMeansNoOccurrence(s: string, p: string)
    requires p != ""
    ensures MatchCount(s, p) == 0 <==> Absent(s, p)
  {
    if |s| < |p| {
    } else if p <= s {
      assert OccursAt(s, p, 0);
    } else {
      NoMatchMeansNoOccurrence(s[1..], p);
      assert forall at :: 0 < at <= |s| ==> s[at..] == s[1..][at - 1..];
      assert forall at :: 0 < at <= |s| ==> (OccursAt(s, p, at) <==> OccursAt(s[1..], p, at - 1));
      assert forall at :: 0 <= at <= |s[1..]| ==> (OccursAt(s[1..], p, at) <==> OccursAt(s, p, at + 1));
      assert !OccursAt(s, p, 0) by { assert s[0..] == s; }
    }
  }

  // ------------------------------------------------------------------------ line endings

  function Normalize(content: string): string { Replace(content, "\r\n", "\n") }

  function Restore(content: string, crlf: bool): string {
    if crlf then Replace(content, "\n", "\r\n") else content
  }

  const SAMPLE: nat := 4096

  function Sample(raw: string): string { raw[..Min(SAMPLE, |raw|)] }

  /** Whether CRLF is the dominant style of the first characters. */
  function DetectCrlf(raw: string): bool {
    var crlf := MatchCount(Sample(raw), "\r\n");
    CrlfCountedAsLf(Sample(raw));
    var lf: nat := MatchCount(Sample(raw), "\n") - crlf;
    crlf > lf
  }

  /** Every CRLF is also counted as an LF, so the unsigned subtraction cannot wrap. */
  lemma {:induction false} CrlfCountedAsLf(s: string)
    ensures MatchCount(s, "\r\n") <= MatchCount(s, "\n")
  {
    if |s| >= 2 {
      if "\r\n" <= s {
        CrlfCountedAsLf(s[2..]);
        assert s[0] == '\r' && s[1..][0] == '\n' && s[1..][1..] == s[2..];
        assert MatchCount(s, "\n") == MatchCount(s[1..], "\n") == 1 + MatchCount(s[2..], "\n");
      } else {
        CrlfCountedAsLf(s[1..]);
      }
    }
  }

  /** Every LF of the text is the second half of a CRLF. */
  ghost predicate AllCrlf(s: string) {
    forall i :: 0 <= i < |s| && s[i] == '\n' ==> i > 0 && s[i - 1] == '\r'
  }

  /** No LF of the text follows a CR. */
  ghost predicate AllLf(s: string) {
    forall i :: 0 < i < |s| && s[i] == '\n' ==> s[i - 1] != '\r'
  }

  function Crlf(c: char): string { if c == '\n' then "\r\n" else [c] }

  lemma RestoreEmpty()
    ensures Restore("", true) == ""
  {
  }

  lemma RestoreCons(s: string)
    requires s != ""
    ensures Restore(s, true) == Crlf(s[0]) + Restore(s[1..], true)
  {
  }

  lemma {:induction false} RestoreConcat(a: string, b: string)
    ensures Restore(a + b, true) == Restore(a, true) + Restore(b, true)
  {
    if a == "" {
      assert a + b == b;
    } else {
      assert (a + b)[1..] == a[1..] + b;
      RestoreCons(a);
      RestoreCons(a + b);
      RestoreConcat(a[1..], b);
    }
  }

  lemma RestoreNeverStartsWithLf(s: string)
    ensures Restore(s, true) != "" ==> s != "" && Restore(s, true)[0] != '\n'
    ensures s != "" ==> |Restore(s, true)| >= 1
  {
  }

  /** Normalising undoes restoring, for every text. */
  lemma {:induction false} NormalizeRestore(t: string)
    ensures Normalize(Restore(t, true)) == t
  {
    if t != "" {
      var rest := Restore(t[1..], true);
      var whole := Restore(t, true);
      NormalizeRestore(t[1..]);
      RestoreCons(t);
      RestoreNeverStartsWithLf(t[1..]);
      if t[0] == '\n' {
        assert whole[2..] == rest;
      } else {
        assert whole[1..] == rest;
        assert |whole| >= 2 ==> whole[1] == rest[0];
        SearchSkips(whole, "\r\n", "\n");
      }
      assert t == [t[0]] + t[1..];
    }
  }

  /** Restoring undoes normalising exactly on files whose every newline is a CRLF. */
  lemma {:induction false} RestoreNormalize(raw: string)
    ensures Restore(Normalize(raw), true) == raw <==> AllCrlf(raw)
    decreases |raw|
  {
    if raw == "" {
    } else if "\r\n" <= raw {
      var rest := raw[2..];
      RestoreNormalize(rest);
      assert Normalize(raw) == "\n" + Normalize(rest);
      RestoreCons(Normalize(raw));
      assert Normalize(raw)[1..] == Normalize(rest);
      assert raw == "\r\n" + rest;
      AllCrlfDrops(raw, 2);
    } else {
      var rest := raw[1..];
      RestoreNormalize(rest);
      SearchSkips(raw, "\r\n", "\n");
      assert Normalize(raw) == [raw[0]] + Normalize(rest);
      RestoreCons(Normalize(raw));
      assert Normalize(raw)[1..] == Normalize(rest);
      assert raw == [raw[0]] + rest;
      if raw[0] == '\n' {
        assert Restore(Normalize(raw), true)[0] == '\r';
      } else {
        assert Restore(Normalize(raw), true) == [raw[0]] + Restore(Normalize(rest), true);
        assert Restore(Normalize(raw), true)[1..] == Restore(Normalize(rest), true);
        AllCrlfDrops(raw, 1);
      }
    }
  }

  lemma AllCrlfDrops(raw: string, n: nat)
    requires (n == 1 && raw != "" && raw[0] != '\n' && !("\r\n" <= raw)) || (n == 2 && "\r\n" <= raw)
    ensures AllCrlf(raw) <==> AllCrlf(raw[n..])
  {
    var rest := raw[n..];
    if AllCrlf(raw) {
      forall i | 0 <= i < |rest| && rest[i] == '\n' ensures i > 0 && rest[i - 1] == '\r' {
        assert raw[i + n] == '\n';
        assert raw[i + n - 1] == '\r';
      }
    }
    if AllCrlf(rest) {
      forall i | 0 <= i < |raw| && raw[i] == '\n' ensures i > 0 && raw[i - 1] == '\r' {
        if i >= n { assert rest[i - n] == '\n'; }
      }
    }
  }

  lemma {:induction false} AllLfNormalizesToItself(raw: string)
    requires AllLf(raw)
    ensures Normalize(raw) == raw
  {
    if raw != "" {
      assert |raw| >= 2 && raw[1] == '\n' ==> raw[0] != '\r';
      AllLfNormalizesToItself(raw[1..]);
      SearchSkips(raw, "\r\n", "\n");
      assert raw == [raw[0]] + raw[1..];
    }
  }

  lemma {:induction false} NormalizedIsAllLf(raw: string)
    requires Normalize(raw) == raw
    ensures AllLf(raw)
    decreases |raw|
  {
    if |raw| >= 2 { NormalizeShortens(raw[2..]); }
    if raw != "" && !("\r\n" <= raw) {
      SearchSkips(raw, "\r\n", "\n");
      assert Normalize(raw)[1..] == Normalize(raw[1..]);
      NormalizedIsAllLf(raw[1..]);
      forall i | 0 < i < |raw| && raw[i] == '\n' ensures raw[i - 1] != '\r' {
        if i > 1 { assert raw[1..][i - 1] == raw[i] && raw[1..][i - 2] == raw[i - 1]; }
      }
    }
  }

  lemma {:induction false} NormalizeShortens(s: string)
    ensures |Normalize(s)| <= |s|
    decreases |s|
  {
    if "\r\n" <= s {
      NormalizeShortens(s[2..]);
    } else if s != "" {
      SearchSkips(s, "\r\n", "\n");
      NormalizeShortens(s[1..]);
    }
  }

  lemma {:induction false} CountsOfUniformText(s: string)
    ensures AllCrlf(s) ==> MatchCount(s, "\r\n") == MatchCount(s, "\n")
    ensures AllLf(s) ==> MatchCount(s, "\r\n") == 0
    ensures MatchCount(s, "\n") > 0 <==> '\n' in s
  {
    if |s| >= 2 && "\r\n" <= s {
      CountsOfUniformText(s[2..]);
      AllCrlfDrops(s, 2);
      assert s[1..][1..] == s[2..];
      assert MatchCount(s, "\n") == MatchCount(s[1..], "\n") == 1 + MatchCount(s[2..], "\n");
      assert s[1] == '\n' && s[0] == '\r';
    } else if s != "" {
      CountsOfUniformText(s[1..]);
      if s[0] != '\n' { AllCrlfDrops(s, 1); }
      assert s == [s[0]] + s[1..];
    }
  }

  /** How many newlines come right after a CR, or do not; `cr` says whether a CR came before the text. */
  function Newlines(s: string, cr: bool, afterCr: bool): nat {
    if s == "" then 0
    else (if s[0] == '\n' && cr == afterCr then 1 else 0) + Newlines(s[1..], s[0] == '\r', afterCr)
  }

  /** A file is taken for CRLF exactly when most newlines of its first characters come after a CR. */
  lemma DetectIsMajority(raw: string)
    ensures DetectCrlf(raw) <==> Newlines(Sample(raw), false, true) > Newlines(Sample(raw), false, false)
  {
    CrlfNewlines(Sample(raw));
    AllNewlines(Sample(raw), false);
  }

  lemma {:induction false} CrlfNewlines(s: string)
    ensures MatchCount(s, "\r\n") == Newlines(s, false, true)
  {
    if "\r\n" <= s {
      assert s[1..][1..] == s[2..];
      CrlfNewlines(s[2..]);
      assert Newlines(s, false, true) == Newlines(s[1..], true, true) == 1 + Newlines(s[2..], false, true);
    } else if s != "" {
      SearchSkips(s, "\r\n", "\n");
      CrlfNewlines(s[1..]);
      if s[0] == '\r' { AfterLoneCr(s[1..]); }
    }
  }

  lemma AfterLoneCr(s: string)
    requires s == "" || s[0] != '\n'
    ensures Newlines(s, true, true) == Newlines(s, false, true)
  {
  }

  lemma {:induction false} AllNewlines(s: string, cr: bool)
    ensures MatchCount(s, "\n") == Newlines(s, cr, true) + Newlines(s, cr, false)
  {
    if s != "" {
      AllNewlines(s[1..], s[0] == '\r');
    }
  }

  /** What the sample decides on a file of one style. */
  lemma DetectUniform(raw: string)
    ensures AllCrlf(raw) ==> (DetectCrlf(raw) <==> '\n' in Sample(raw))
    ensures AllLf(raw) ==> !DetectCrlf(raw)
  {
    CountsOfUniformText(Sample(raw));
  }

  // ---------------------------------------------------------------------------- the edit

  datatype EditError = EmptyOld | NotFound | Ambiguous(matches: nat)

  /** Replace one literal in LF text; both literals are normalised first. */
  function ApplyLiteralEdit(content: string, old_: string, new_: string, replaceAll: bool): (r: Result<string, EditError>)
    ensures r.Ok? <==>
      && Normalize(old_) != ""
      && !Absent(content, Normalize(old_))
      && (replaceAll || MatchCount(content, Normalize(old_)) == 1)
    ensures r.Ok? ==>
      var pieces := Pieces(content, Normalize(old_));
      content == Join(pieces, Normalize(old_)) && r.value == Join(pieces, Normalize(new_))
    ensures r == Err(EmptyOld) <==> old_ == ""
    ensures r == Err(NotFound) <==> old_ != "" && Absent(content, Normalize(old_))
    ensures r.Err? && r.error.Ambiguous? ==> r.error.matches == MatchCount(content, Normalize(old_)) > 1 && !replaceAll
  {
    NormalizeEmpty(old_);
    var oldText := Normalize(old_);
    if oldText == "" then Err(EmptyOld)
    else
      var newText := Normalize(new_);
      var matches := MatchCount(content, oldText);
      NoMatchMeansNoOccurrence(content, oldText);
      if matches == 0 then Err(NotFound)
      else if !replaceAll && matches > 1 then Err(Ambiguous(matches))
      else
        ReplaceKeepsPieces(content, oldText, newText);
        Ok(Replace(content, oldText, newText))
  }

  lemma NormalizeEmpty(s: string)
    ensures Normalize(s) == "" <==> s == ""
  {
  }

  /** The whole edit, from the file's raw text to the raw text written back. */
  function EditText(raw: string, old_: string, new_: string, replaceAll: bool): Result<string, EditError> {
    match ApplyLiteralEdit(Normalize(raw), old_, new_, replaceAll)
    case Err(e) => Err(e)
    case Ok(edited) => Ok(Restore(edited, DetectCrlf(raw)))
  }

  function RestorePieces(pieces: seq<string>): (r: seq<string>)
    ensures |r| == |pieces|
    ensures forall k :: 0 <= k < |r| ==> r[k] == Restore(pieces[k], true)
  {
    if pieces == [] then [] else [Restore(pieces[0], true)] + RestorePieces(pieces[1..])
  }

  lemma {:induction false} RestoreJoin(pieces: seq<string>, between: string)
    requires pieces != []
    ensures Restore(Join(pieces, between), true) == Join(RestorePieces(pieces), Restore(between, true))
  {
    if |pieces| > 1 {
      RestoreJoin(pieces[1..], between);
      RestoreConcat(pieces[0] + between, Join(pieces[1..], between));
      RestoreConcat(pieces[0], between);
      assert RestorePieces(pieces)[1..] == RestorePieces(pieces[1..]);
    }
  }

  lemma {:induction false} RestoreIsIdentityWithoutLf(s: string)
    ensures Restore(s, true) == s <==> '\n' !in s
  {
    if s != "" {
      RestoreCons(s);
      RestoreIsIdentityWithoutLf(s[1..]);
      RestoreLengthens(s[1..]);
      assert s == [s[0]] + s[1..];
      if s[0] != '\n' && Restore(s, true) == s {
        assert Restore(s, true)[1..] == Restore(s[1..], true);
      }
    }
  }

  lemma {:induction false} RestoreLengthens(s: string)
    ensures |Restore(s, true)| >= |s|
  {
    if s != "" {
      RestoreCons(s);
      RestoreLengthens(s[1..]);
    }
  }

  /**
   * An accepted edit of an all-CRLF file. The raw file is its pieces with the old literal
   * between them; the result is the same pieces with the new literal, everything in the
   * file's own style -- exactly when the sample saw a newline or none is left to restyle.
   */
  lemma EditKeepsCrlfFile(raw: string, old_: string, new_: string, replaceAll: bool)
    requires AllCrlf(raw) && EditText(raw, old_, new_, replaceAll).Ok?
    ensures var pieces := Pieces(Normalize(raw), Normalize(old_));
            && raw == Join(RestorePieces(pieces), Restore(Normalize(old_), true))
            && (EditText(raw, old_, new_, replaceAll).value
                  == Join(RestorePieces(pieces), Restore(Normalize(new_), true))
                <==> '\n' in Sample(raw) || '\n' !in Join(pieces, Normalize(new_)))
  {
    var pieces := Pieces(Normalize(raw), Normalize(old_));
    RestoreNormalize(raw);
    ReplaceKeepsPieces(Normalize(raw), Normalize(old_), Normalize(new_));
    RestoreJoin(pieces, Normalize(old_));
    RestoreJoin(pieces, Normalize(new_));
    DetectUniform(raw);
    RestoreIsIdentityWithoutLf(Join(pieces, Normalize(new_)));
  }

  /** An accepted edit of an all-LF file replaces the literal in the raw text itself. */
  lemma EditKeepsLfFile(raw: string, old_: string, new_: string, replaceAll: bool)
    requires AllLf(raw) && EditText(raw, old_, new_, replaceAll).Ok?
    ensures EditText(raw, old_, new_, replaceAll).value == Replace(raw, Normalize(old_), Normalize(new_))
  {
    AllLfNormalizesToItself(raw);
    DetectUniform(raw);
  }

  // --------------------------------------------------------- files of more than one style

  /** Every newline of the file is of the style its sample shows. */
  ghost predicate InOneStyle(raw: string) { if DetectCrlf(raw) then AllCrlf(raw) else AllLf(raw) }

  /** The round trip an edit makes gives back a file exactly when it is written in that style. */
  lemma RoundTripExactlyWhen(raw: string)
    ensures Restore(Normalize(raw), DetectCrlf(raw)) == raw <==> InOneStyle(raw)
  {
    hide Normalize, AllLf, AllCrlf, DetectCrlf;
    RestoreNormalize(raw);
    PlainRestore(Normalize(raw));
    if Normalize(raw) == raw { NormalizedIsAllLf(raw); }
    if AllLf(raw) { AllLfNormalizesToItself(raw); }
  }

  /** So an edit that changes nothing leaves every byte alone on those files, and on no others. */
  lemma EmptyEditKeepsExactly(raw: string, literal: string, replaceAll: bool)
    requires EditText(raw, literal, literal, replaceAll).Ok?
    ensures EditText(raw, literal, literal, replaceAll) == Ok(raw) <==> InOneStyle(raw)
  {
    hide Replace, Restore, Normalize, DetectCrlf, InOneStyle;
    AcceptedIsReplaced(raw, literal, literal, replaceAll);
    ReplaceBySelf(Normalize(raw), Normalize(literal));
    RoundTripExactlyWhen(raw);
  }

  /** A file of both styles: the newline before the match is rewritten. */
  lemma MixedNewlinesAreRewritten()
    ensures EditText("a\r\nb\n", "b", "c", true) == Ok("a\nc\n")
  {
    hide Replace, MatchCount, Pieces, Restore;
    var text := "a\nb\n";
    MixedNewlinesRead();
    assert text[0] == 'a' && text[1] == '\n' && "b"[0] == 'b' && "\r\n"[0] == '\r';
    SearchSkips(text, "b", "c");
    SearchSkips(text[1..], "b", "c");
    SearchTakes(text[2..], "b", "c");
    SearchSkips(text[3..], "b", "c");
    SearchEnds("b", "c");
    SearchEnds("\r\n", "\n");
    SearchSkips("b", "\r\n", "\n");
    SearchSkips("c", "\r\n", "\n");
    assert text[1..] == "\nb\n" && text[2..] == "b\n" && text[3..] == "\n";
    assert OccursAt(text, "b", 2);
    assert "b"[1..] == "" && "c"[1..] == "" && Normalize("b") == "b" && Normalize("c") == "c";
    assert Replace(text, "b", "c") == "a\nc\n";
    AcceptedIsReplaced("a\r\nb\n", "b", "c", true);
    PlainRestore("a\nc\n");
  }

  lemma MixedNewlinesRead()
    ensures var raw := "a\r\nb\n"; Normalize(raw) == "a\nb\n" && !DetectCrlf(raw)
  {
    hide Replace, MatchCount, Pieces;
    var raw := "a\r\nb\n";
    assert raw[0] == 'a' && raw[1] == '\r' && raw[3] == 'b' && "\r\n"[0] == '\r' && "\n"[0] == '\n';
    SearchSkips(raw, "\r\n", "\n");
    SearchTakes(raw[1..], "\r\n", "\n");
    SearchSkips(raw[3..], "\r\n", "\n");
    SearchSkips(raw[4..], "\r\n", "\n");
    SearchEnds("\r\n", "\n");
    assert raw[1..][2..] == raw[3..] && raw[3..][1..] == raw[4..] && raw[4..][1..] == "";
    SearchSkips(raw, "\n", "\n");
    SearchSkips(raw[1..], "\n", "\n");
    SearchTakes(raw[2..], "\n", "\n");
    SearchSkips(raw[3..], "\n", "\n");
    SearchTakes(raw[4..], "\n", "\n");
    SearchEnds("\n", "\n");
    assert raw[1..][1..] == raw[2..] && raw[2..][1..] == raw[3..];
    assert Sample(raw) == raw;
  }

  // ------------------------------------------------- matches as the raw file spells them

  /** A restored literal matches restored text only on whole characters, unless it ends in CR. */
  lemma {:induction false} RestoredMatchIsAligned(s: string, p: string)
    requires p != "" ==> p[|p| - 1] != '\r'
    ensures Restore(p, true) <= Restore(s, true) <==> p <= s
    decreases |p|
  {
    hide Replace;
    RestoreEmpty();
    if p == "" {
    } else if s == "" {
      RestoreNeverStartsWithLf(p);
    } else {
      RestoreCons(p);
      RestoreCons(s);
      RestoreNeverStartsWithLf(p[1..]);
      RestoreNeverStartsWithLf(s[1..]);
      RestoredMatchIsAligned(s[1..], p[1..]);
      var rp, rs := Restore(p, true), Restore(s, true);
      if p[0] == s[0] {
        var w := |Crlf(p[0])|;
        assert rp[w..] == Restore(p[1..], true) && rs[w..] == Restore(s[1..], true);
        if rp <= rs { assert rp[w..] <= rs[w..]; }
        if p[1..] <= s[1..] { assert p == [p[0]] + p[1..] && s == [s[0]] + s[1..]; }
      } else {
        assert rp[0] == Crlf(p[0])[0] && rs[0] == Crlf(s[0])[0];
        assert p[0] == '\n' ==> |rp| >= 2 && rp[1] == '\n';
        assert s[0] == '\n' ==> |rs| >= 2 && rs[1] == '\n';
        assert p[0] != '\n' && |rp| >= 2 ==> rp[1] == Restore(p[1..], true)[0];
        assert s[0] != '\n' && |rs| >= 2 ==> rs[1] == Restore(s[1..], true)[0];
      }
    }
  }

  /** Replacing in the restored text is restoring the replaced text. */
  lemma {:induction false} ReplaceCommutesWithRestore(s: string, p: string, r: string)
    requires p != "" && p[|p| - 1] != '\r'
    ensures Restore(p, true) != ""
    ensures Replace(Restore(s, true), Restore(p, true), Restore(r, true)) == Restore(Replace(s, p, r), true)
    decreases |s|
  {
    hide Replace;
    var rs, rp, rr := Restore(s, true), Restore(p, true), Restore(r, true);
    RestoreNeverStartsWithLf(p);
    RestoredMatchIsAligned(s, p);
    if p <= s {
      var rest := s[|p|..];
      assert s == p + rest;
      RestoreConcat(p, rest);
      SearchTakes(s, p, r);
      SearchTakes(rs, rp, rr);
      assert rs[|rp|..] == Restore(rest, true);
      ReplaceCommutesWithRestore(rest, p, r);
      RestoreConcat(r, Replace(rest, p, r));
    } else if s != "" {
      SearchSkips(s, p, r);
      RestoreCons(s);
      SearchSkips(rs, rp, rr);
      ReplaceCommutesWithRestore(s[1..], p, r);
      RestoreCons([s[0]] + Replace(s[1..], p, r));
      assert ([s[0]] + Replace(s[1..], p, r))[1..] == Replace(s[1..], p, r);
      if s[0] == '\n' {
        assert rs[1..] == "\n" + Restore(s[1..], true);
        assert rs[1..][1..] == Restore(s[1..], true);
        SearchSkips(rs[1..], rp, rr);
      } else {
        assert rs[1..] == Restore(s[1..], true);
      }
    } else {
      RestoreEmpty();
      SearchEnds(p, r);
      SearchEnds(rp, rr);
    }
  }

  // ------------------------------------------------- the edit as the raw file sees it

  /** The literal as a CRLF file spells it. */
  function InRaw(literal: string): string { Restore(Normalize(literal), true) }

  lemma InRawIsNotEmpty(literal: string)
    requires literal != ""
    ensures InRaw(literal) != "" && Normalize(literal) != ""
  {
    NormalizeEmpty(literal);
    RestoreNeverStartsWithLf(Normalize(literal));
  }

  /** Normalising keeps the last character of a text. */
  lemma {:induction false} NormalizeKeepsLast(s: string)
    requires s != ""
    ensures Normalize(s) != "" && Normalize(s)[|Normalize(s)| - 1] == s[|s| - 1]
    decreases |s|
  {
    if "\r\n" <= s {
      NormalizeEmpty(s[2..]);
      if |s| > 2 { NormalizeKeepsLast(s[2..]); }
    } else {
      SearchSkips(s, "\r\n", "\n");
      if |s| > 1 { NormalizeKeepsLast(s[1..]); }
    }
  }

  /** An accepted edit leaves what replacing in the raw file itself would leave. */
  predicate ReplacesInRaw(raw: string, old_: string, new_: string, replaceAll: bool)
    requires old_ != ""
  {
    InRawIsNotEmpty(old_);
    EditText(raw, old_, new_, replaceAll) == Ok(Replace(raw, InRaw(old_), InRaw(new_)))
  }

  /**
   * An accepted edit of a CRLF file with an old literal that does not end in a CR does so exactly
   * when the sample saw a newline or none is left to restyle.
   */
  lemma EditReplacesInRaw(raw: string, old_: string, new_: string, replaceAll: bool)
    requires old_ != "" && old_[|old_| - 1] != '\r'
    requires AllCrlf(raw) && EditText(raw, old_, new_, replaceAll).Ok?
    ensures var p, r := Normalize(old_), Normalize(new_);
      && p != ""
      && (ReplacesInRaw(raw, old_, new_, replaceAll) <==> '\n' in Sample(raw) || '\n' !in Replace(Normalize(raw), p, r))
  {
    hide Replace, Restore, Normalize, MatchCount, Pieces;
    var p, r := Normalize(old_), Normalize(new_);
    NormalizeKeepsLast(old_);
    RestoreNormalize(raw);
    ReplaceCommutesWithRestore(Normalize(raw), p, r);
    AcceptedIsReplaced(raw, old_, new_, replaceAll);
    DetectUniform(raw);
    RestoreIsIdentityWithoutLf(Replace(Normalize(raw), p, r));
    PlainRestore(Replace(Normalize(raw), p, r));
  }

  /** A file whose newlines all come after the sample: the new literal's newline stays an LF. */
  lemma SampleMisses(raw: string, c: char) returns (old_: string)
    requires AllCrlf(raw) && '\n' !in Sample(raw) && c in raw && c != '\r'
    ensures old_ == [c] && EditText(raw, old_, "\n", true).Ok? && !ReplacesInRaw(raw, old_, "\n", true)
  {
    hide AllCrlf, Sample, Restore, ReplacesInRaw, DetectCrlf;
    old_ := [c];
    NormalizeKeepsOthers(raw, c);
    var text := Normalize(raw);
    var k :| 0 <= k < |text| && text[k] == c;
    assert OccursAt(text, old_, k);
    assert Normalize(old_) == old_ && Normalize("\n") == "\n";
    ReplacementShows(text, old_, "\n");
    EditReplacesInRaw(raw, old_, "\n", true);
  }

  /** The search passes over text that does not hold the literal's first character. */
  lemma {:induction false} SearchPasses(head: string, s: string, p: string, r: string)
    requires p != "" && p[0] !in head
    ensures Replace(head + s, p, r) == head + Replace(s, p, r)
  {
    hide Replace;
    if head == "" {
      assert head + s == s;
    } else {
      assert (head + s)[0] == head[0] && (head + s)[1..] == head[1..] + s;
      SearchSkips(head + s, p, r);
      SearchPasses(head[1..], s, p, r);
    }
  }

  /** An all-CRLF file whose one newline comes after the sample ends in an LF once it is edited. */
  lemma LateNewlineIsRewritten(head: string)
    requires |head| >= SAMPLE && '\n' !in head && '\r' !in head && 'b' !in head
    ensures AllCrlf(head + "b\r\n") && EditText(head + "b\r\n", "b", "c", true) == Ok(head + "c\n")
  {
    hide Replace, MatchCount, Pieces, Restore, DetectCrlf;
    var raw, text := head + "b\r\n", head + "b\n";
    SearchPasses(head, "b\r\n", "\r\n", "\n");
    SearchPasses(head, "b\n", "b", "c");
    OneLine();
    assert OccursAt(text, "b", |head|);
    DetectUniform(raw);
    AcceptedIsReplaced(raw, "b", "c", true);
    PlainRestore(head + "c\n");
  }

  lemma OneLine()
    ensures Normalize("b\r\n") == "b\n" && Replace("b\n", "b", "c") == "c\n" && Normalize("b") == "b" && Normalize("c") == "c"
  {
    assert "b\r\n"[0] == 'b' && "b\r\n"[1..] == "\r\n" && "b\n"[1..] == "\n" && "\r\n"[2..] == "";
  }

  lemma {:induction false} NormalizeKeepsOthers(s: string, c: char)
    requires c in s && c != '\r'
    ensures c in Normalize(s)
    decreases |s|
  {
    if "\r\n" <= s {
      assert s == "\r\n" + s[2..];
      if c in s[2..] { NormalizeKeepsOthers(s[2..], c); }
    } else {
      SearchSkips(s, "\r\n", "\n");
      assert s == [s[0]] + s[1..];
      if c in s[1..] { NormalizeKeepsOthers(s[1..], c); }
    }
  }

  /** Where the literal occurs, its replacement shows. */
  lemma ReplacementShows(s: string, p: string, r: string)
    requires p != "" && !Absent(s, p)
    ensures forall c :: c in r ==> c in Replace(s, p, r)
  {
    NoMatchMeansNoOccurrence(s, p);
    ReplaceBySelf(s, p);
    JoinPieces(s, p, r);
  }

  /** Every accepted edit of this CRLF file, with an old literal that does not end in a CR, replaces in it. */
  ghost predicate FileEditsRaw(raw: string) {
    forall old_: string, new_: string, replaceAll: bool ::
      old_ != "" && old_[|old_| - 1] != '\r' && EditText(raw, old_, new_, replaceAll).Ok? ==> ReplacesInRaw(raw, old_, new_, replaceAll)
  }

  /** That holds of a CRLF file if and only if its sample shows a newline, or it holds nothing but CRs. */
  lemma SampleDecides(raw: string)
    requires AllCrlf(raw)
    ensures FileEditsRaw(raw) <==> '\n' in Sample(raw) || forall c :: c in raw ==> c == '\r'
  {
    hide EditText, ReplacesInRaw, AllCrlf, Sample, Replace, Normalize;
    if '\n' in Sample(raw) {
      forall old_: string, new_: string, replaceAll: bool
        | old_ != "" && old_[|old_| - 1] != '\r' && EditText(raw, old_, new_, replaceAll).Ok?
        ensures ReplacesInRaw(raw, old_, new_, replaceAll)
      {
        EditReplacesInRaw(raw, old_, new_, replaceAll);
      }
    } else if c :| c in raw && c != '\r' {
      var old_ := SampleMisses(raw, c);
    } else {
      forall old_: string, new_: string, replaceAll: bool | old_ != "" && old_[|old_| - 1] != '\r'
        ensures !EditText(raw, old_, new_, replaceAll).Ok?
      {
        OnlyCrsMatchNothing(raw, old_, new_, replaceAll);
      }
    }
  }

  lemma OnlyCrsMatchNothing(raw: string, old_: string, new_: string, replaceAll: bool)
    requires old_ != "" && old_[|old_| - 1] != '\r' && forall c :: c in raw ==> c == '\r'
    ensures !EditText(raw, old_, new_, replaceAll).Ok?
  {
    hide Normalize, Restore, MatchCount, Pieces;
    NormalizeKeepsLast(old_);
    var p := Normalize(old_);
    forall i | 0 <= i < |raw| ensures raw[i] != '\n' { assert raw[i] in raw; }
    AllLfNormalizesToItself(raw);
    assert p[|p| - 1] == old_[|old_| - 1];
    forall at | 0 <= at <= |raw| ensures !OccursAt(raw, p, at) {
      forall i | 0 <= i < |raw[at..]| ensures raw[at..][i] == '\r' { assert raw[at..][i] in raw; }
    }
  }

  lemma AcceptedIsReplaced(raw: string, old_: string, new_: string, replaceAll: bool)
    requires EditText(raw, old_, new_, replaceAll).Ok?
    ensures Normalize(old_) != ""
    ensures EditText(raw, old_, new_, replaceAll)
      == Ok(Restore(Replace(Normalize(raw), Normalize(old_), Normalize(new_)), DetectCrlf(raw)))
  {
    hide Replace, Restore, Normalize, MatchCount, Pieces, DetectCrlf;
  }

  lemma PlainRestore(s: string)
    ensures Restore(s, false) == s
  {
  }

  /** Every accepted edit of a CRLF file whose sample shows its style replaces in the raw file. */
  ghost predicate EditsRawMatches(old_: string)
    requires old_ != ""
  {
    forall raw: string, new_: string, replaceAll: bool ::
      AllCrlf(raw) && '\n' in Sample(raw) && EditText(raw, old_, new_, replaceAll).Ok? ==> ReplacesInRaw(raw, old_, new_, replaceAll)
  }

  /** That holds of an old literal if and only if it does not end in a CR. */
  lemma EditsRawMatchesUnlessTrailingCr(old_: string)
    requires old_ != ""
    ensures EditsRawMatches(old_) <==> old_[|old_| - 1] != '\r'
  {
    hide EditText, ReplacesInRaw, AllCrlf, Sample, Replace, Normalize;
    if old_[|old_| - 1] != '\r' {
      forall raw: string, new_: string, replaceAll: bool
        | AllCrlf(raw) && '\n' in Sample(raw) && EditText(raw, old_, new_, replaceAll).Ok?
        ensures ReplacesInRaw(raw, old_, new_, replaceAll)
      {
        EditReplacesInRaw(raw, old_, new_, replaceAll);
      }
    } else {
      var raw := TrailingCrMisses(old_);
    }
  }

  // ----------------------------------------------------------- literals that end in a CR

  /**
   * The witness: a newline, the literal with its last CR turned into a newline, and the literal.
   * The edit keeps the file's style; replacing in the raw file would leave a lone LF.
   */
  lemma TrailingCrMisses(old_: string) returns (raw: string)
    requires old_ != "" && old_[|old_| - 1] == '\r'
    ensures AllCrlf(raw) && '\n' in Sample(raw)
    ensures EditText(raw, old_, "", true).Ok? && !ReplacesInRaw(raw, old_, "", true)
  {
    hide Replace, Restore, Normalize, MatchCount, Pieces, AllCrlf;
    NormalizeKeepsLast(old_);
    var p := Normalize(old_);
    var body := p[..|p| - 1];
    var text := "\n" + (body + "\n") + p;
    raw := Restore(text, true);
    assert p == body + "\r";
    WitnessSpelled(body);
    NormalizeRestore(text);
    RestoreNormalize(raw);
    OccursInWitness(body);
    assert Normalize(raw) == text && EditText(raw, old_, "", true).Ok?;
    assert raw[1] == '\n' && Sample(raw)[1] == '\n';
    DetectUniform(raw);
    AcceptedIsReplaced(raw, old_, "", true);
    RestoredIsCrlf(Replace(text, p, Normalize("")));
    NothingNormalized();
    RestoreNeverStartsWithLf(p);
    RestoreEndsInCr(body);
    RawSearchLeavesLf(Restore(p, true));
  }

  lemma NothingNormalized()
    ensures Normalize("") == "" && InRaw("") == ""
  {
    RestoreEmpty();
  }

  lemma RestoredIsCrlf(s: string)
    ensures AllCrlf(Restore(s, true))
  {
    NormalizeRestore(s);
    RestoreNormalize(Restore(s, true));
  }

  lemma WitnessSpelled(body: string)
    ensures var p := body + "\r";
            var rp := Restore(p, true);
            Restore("\n" + (body + "\n") + p, true) == "\r\n" + (rp + "\n") + rp
  {
    hide Replace;
    var p := body + "\r";
    RestoreOfTail(body);
    RestoreEmpty();
    RestoreCons("\n");
    assert "\n"[1..] == "";
    RestoreConcat("\n", body + "\n");
    RestoreConcat("\n" + (body + "\n"), p);
  }

  lemma OccursInWitness(body: string)
    ensures var p := body + "\r"; var text := "\n" + (body + "\n") + p; !Absent(text, p)
  {
    var p := body + "\r";
    var text := "\n" + (body + "\n") + p;
    assert text[|text| - |p|..] == p;
    assert OccursAt(text, p, |text| - |p|);
  }

  lemma RestoreEndsInCr(body: string)
    ensures var rp := Restore(body + "\r", true); rp != "" && rp[|rp| - 1] == '\r'
  {
    hide Replace;
    RestoreEmpty();
    RestoreCons("\r");
    assert "\r"[1..] == "";
    RestoreConcat(body, "\r");
  }

  /**
   * Searching the raw witness takes a match that ends in front of a LF: the first one starts at
   * the very beginning or right after the first newline.
   */
  lemma RawSearchLeavesLf(rp: string)
    requires rp != "" && rp[0] != '\n' && rp[|rp| - 1] == '\r'
    ensures !AllCrlf(Replace("\r\n" + (rp + "\n") + rp, rp, ""))
  {
    hide Replace;
    var raw := "\r\n" + (rp + "\n") + rp;
    if rp <= raw { EarlyMatchLeavesLf(rp, raw); } else { LateMatchLeavesLf(rp, raw); }
  }

  lemma EarlyMatchLeavesLf(rp: string, raw: string)
    requires rp != "" && rp[0] != '\n' && rp[|rp| - 1] == '\r'
    requires raw == "\r\n" + (rp + "\n") + rp && rp <= raw
    ensures !AllCrlf(Replace(raw, rp, ""))
  {
    hide Replace;
    var rest := raw[|rp|..];
    AfterPeriodicMatch(rp, raw);
    SearchTakes(raw, rp, "");
    SearchSkips(rest, rp, "");
    assert Replace(raw, rp, "") == "" + ("\n" + Replace(rest[1..], rp, ""));
    assert Replace(raw, rp, "")[0] == '\n';
  }

  lemma LateMatchLeavesLf(rp: string, raw: string)
    requires rp != "" && rp[0] != '\n' && raw == "\r\n" + (rp + "\n") + rp && !(rp <= raw)
    ensures !AllCrlf(Replace(raw, rp, ""))
  {
    hide Replace;
    var third, left := rp + ("\n" + rp), "\n" + rp;
    assert raw == "\r" + ("\n" + third) && raw[1..] == "\n" + third && ("\n" + third)[1..] == third;
    SearchSkips(raw, rp, "");
    SearchSkips("\n" + third, rp, "");
    SearchTakes(third, rp, "");
    assert third[|rp|..] == left;
    SearchSkips(left, rp, "");
    var after := Replace(left[1..], rp, "");
    assert Replace(raw, rp, "") == "\r" + ("\n" + ("" + ("\n" + after)));
    assert Replace(raw, rp, "")[1] == '\n' && Replace(raw, rp, "")[2] == '\n';
  }

  /** A literal that matches across the first newline alternates CR and LF up to its end. */
  lemma AfterPeriodicMatch(rp: string, raw: string)
    requires rp != "" && rp[|rp| - 1] == '\r' && raw == "\r\n" + (rp + "\n") + rp && rp <= raw
    ensures |rp| < |raw| && raw[|rp|] == '\n'
  {
    forall i | 0 <= i < |rp| ensures rp[i] == if i % 2 == 0 then '\r' else '\n' { Alternates(rp, raw, i); }
    if |rp| >= 2 { assert raw[|rp|] == rp[|rp| - 2]; }
  }

  lemma {:induction false} Alternates(rp: string, raw: string, i: nat)
    requires rp != "" && raw == "\r\n" + (rp + "\n") + rp && rp <= raw && i < |rp|
    ensures rp[i] == if i % 2 == 0 then '\r' else '\n'
  {
    assert rp[i] == raw[i];
    if i >= 2 {
      Alternates(rp, raw, i - 2);
      assert raw[i] == rp[i - 2];
    }
  }

  lemma RestoreOfTail(body: string)
    ensures Restore(body + "\n", true) == Restore(body + "\r", true) + "\n"
  {
    hide Replace;
    RestoreEmpty();
    RestoreCons("\r");
    RestoreCons("\n");
    assert "\r"[1..] == "" && "\n"[1..] == "";
    RestoreConcat(body, "\r");
    RestoreConcat(body, "\n");
    assert Restore(body, true) + "\r\n" == Restore(body, true) + "\r" + "\n";
  }
}
