/** The last lines of terminal output; a line feed is one byte in UTF-8 and part of no other character. */
module TerminalLines {
  import opened Prelude

  const LF: Byte := 10

  /** `split` at line feeds. */
  function Split(text: seq<Byte>): (parts: seq<seq<Byte>>)
    ensures |parts| >= 1
  {
    if text == [] then [[]]
    else
      var rest := Split(text[1..]);
      if text[0] == LF then [[]] + rest else [[text[0]] + rest[0]] + rest[1..]
  }

  /** `join` with line feeds. */
  function Joined(parts: seq<seq<Byte>>): seq<Byte>
    requires parts != []
  {
    if |parts| == 1 then parts[0] else parts[0] + [LF] + Joined(parts[1..])
  }

  function LineCount(text: seq<Byte>): nat { |Split(text)| }

  /** Only the last `lines` lines, and whether any were cut. */
  function TailLines(text: seq<Byte>, lines: nat): (seq<Byte>, bool)
    requires lines >= 1
  {
    var parts := Split(text);
    if |parts| <= lines then (text, false) else (Joined(parts[|parts| - lines..]), true)
  }

  lemma SplitCons(b: Byte, text: seq<Byte>)
    ensures Split([b] + text) == if b == LF then [[]] + Split(text) else [[b] + Split(text)[0]] + Split(text)[1..]
  {
    assert ([b] + text)[1..] == text;
  }

  lemma {:induction false} SplitConcat(a: seq<Byte>, b: seq<Byte>)
    ensures Split(a + [LF] + b) == Split(a) + Split(b)
  {
    hide Split;
    if a == [] {
      assert a + [LF] + b == [LF] + b;
      SplitCons(LF, b);
      SplitNothing();
    } else {
      var rest := a[1..] + [LF] + b;
      assert a + [LF] + b == [a[0]] + rest && a == [a[0]] + a[1..];
      SplitConcat(a[1..], b);
      SplitCons(a[0], rest);
      SplitCons(a[0], a[1..]);
      FirstPartGrows(Split(a[1..]), Split(b), a[0]);
    }
  }

  lemma SplitNothing()
    ensures Split([]) == [[]]
  {
  }

  lemma FirstPartGrows(first: seq<seq<Byte>>, second: seq<seq<Byte>>, b: Byte)
    requires |first| >= 1
    ensures [[]] + (first + second) == ([[]] + first) + second
    ensures [[b] + (first + second)[0]] + (first + second)[1..] == ([[b] + first[0]] + first[1..]) + second
  {
  }

  lemma {:induction false} SplitPart(part: seq<Byte>)
    requires LF !in part
    ensures Split(part) == [part]
  {
    if part != [] {
      SplitPart(part[1..]);
      assert [part[0]] + part[1..] == part;
    }
  }

  lemma {:induction false} PartsHaveNoLf(text: seq<Byte>)
    ensures forall p :: p in Split(text) ==> LF !in p
  {
    if text != [] { PartsHaveNoLf(text[1..]); }
  }

  /** Joining undoes splitting. */
  lemma {:induction false} JoinedSplit(text: seq<Byte>)
    ensures Joined(Split(text)) == text
  {
    if text != [] {
      JoinedSplit(text[1..]);
      var rest := Split(text[1..]);
      if text[0] == LF {
        assert ([[]] + rest)[1..] == rest;
        assert [] + [LF] + text[1..] == text;
      } else {
        JoinedGrows(rest, text[0]);
        assert [text[0]] + text[1..] == text;
      }
    }
  }

  lemma JoinedGrows(parts: seq<seq<Byte>>, b: Byte)
    requires parts != []
    ensures Joined([[b] + parts[0]] + parts[1..]) == [b] + Joined(parts)
  {
    var grown := [[b] + parts[0]] + parts[1..];
    assert grown[1..] == parts[1..];
    if |parts| > 1 {
      assert ([b] + parts[0]) + [LF] + Joined(parts[1..]) == [b] + (parts[0] + [LF] + Joined(parts[1..]));
    }
  }

  /** Splitting undoes joining. */
  lemma {:induction false} SplitJoined(parts: seq<seq<Byte>>)
    requires parts != [] && forall p :: p in parts ==> LF !in p
    ensures Split(Joined(parts)) == parts
    decreases |parts|
  {
    hide Split;
    assert parts[0] in parts;
    SplitPart(parts[0]);
    if |parts| > 1 {
      SplitJoined(parts[1..]);
      SplitConcat(parts[0], Joined(parts[1..]));
    }
    assert parts == [parts[0]] + parts[1..];
  }

  lemma {:induction false} JoinedConcat(a: seq<seq<Byte>>, b: seq<seq<Byte>>)
    requires a != [] && b != []
    ensures Joined(a + b) == Joined(a) + [LF] + Joined(b)
    decreases |a|
  {
    assert (a + b)[1..] == a[1..] + b;
    if |a| > 1 {
      JoinedConcat(a[1..], b);
      assert a[0] + [LF] + (Joined(a[1..]) + [LF] + Joined(b)) == (a[0] + [LF] + Joined(a[1..])) + [LF] + Joined(b);
    } else {
      assert a[1..] + b == b;
    }
  }

  /** There is one line more than line feeds. */
  lemma {:induction false} LinesCountLfs(text: seq<Byte>)
    ensures LineCount(text) == 1 + Lfs(text)
  {
    if text != [] { LinesCountLfs(text[1..]); }
  }

  function Lfs(text: seq<Byte>): nat { if text == [] then 0 else (if text[0] == 10 then 1 else 0) + Lfs(text[1..]) }

  /** A tail of at most so many lines that no longer tail has. */
  ghost predicate LongestTail(text: seq<Byte>, tail: seq<Byte>, lines: nat) {
    && |tail| <= |text| && tail == text[|text| - |tail|..] && LineCount(tail) <= lines
    && forall at :: 0 <= at < |text| - |tail| ==> LineCount(text[at..]) > lines
  }

  /** The cut keeps the longest tail of the text that has no more lines than asked for. */
  lemma TailLinesIsLongest(text: seq<Byte>, lines: nat)
    requires lines >= 1
    ensures var (tail, cut) := TailLines(text, lines);
            LongestTail(text, tail, lines) && (cut <==> LineCount(text) > lines) && (cut ==> LineCount(tail) == lines)
  {
    hide Split, Joined;
    var parts := Split(text);
    if |parts| <= lines {
      assert text[0..] == text;
    } else {
      var k := |parts| - lines;
      var head, last := parts[..k], parts[k..];
      var tail := Joined(last);
      assert parts == head + last;
      PartsHaveNoLf(text);
      JoinedSplit(text);
      JoinedConcat(head, last);
      SplitJoined(last);
      var cut := |text| - |tail|;
      assert text == Joined(head) + [LF] + tail && text[cut..] == tail;
      forall at | 0 <= at < cut ensures LineCount(text[at..]) > lines {
        assert text[at..] == text[at..cut - 1] + [LF] + tail;
        SplitConcat(text[at..cut - 1], tail);
      }
    }
  }
}
