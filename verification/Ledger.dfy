/** The output ledger of the program host: console lines charged against one JSON budget. */
module Ledger {
  import opened Prelude
  import opened JsonText

  const COMMA: Byte := 44

  /** The elements of a JSON array of strings, separated by commas. */
  function Elements(lines: seq<Text>): seq<Byte> {
    if lines == [] then []
    else if |lines| == 1 then Quote(lines[0])
    else Elements(lines[..|lines| - 1]) + [COMMA] + Quote(lines[|lines| - 1])
  }

  /** The JSON array the host would serialize the lines as. */
  function ArrayJson(lines: seq<Text>): seq<Byte> { [91] + Elements(lines) + [93] }

  lemma ArrayJsonSnoc(lines: seq<Text>, line: Text)
    ensures |ArrayJson(lines + [line])| == |ArrayJson(lines)| + (if lines == [] then 0 else 1) + |Quote(line)|
  {
  }

  /** What a ledger sinks of a text it has no room for: the longest piece that fits, or nothing. */
  ghost predicate LastPiece(before: seq<Text>, after: seq<Text>, text: Text, maxBytes: int) {
    if after == before then
      forall e :: 0 < e <= |text| ==> |ArrayJson(before + [text[..e]])| > maxBytes
    else
      && |after| == |before| + 1 && after[..|before|] == before
      && var piece := after[|before|];
         && 0 < |piece| <= |text| && piece == text[..|piece|] && Boundary(text, |piece|)
         && |ArrayJson(after)| <= maxBytes
         && forall e :: |piece| < e <= |text| ==> |ArrayJson(before + [text[..e]])| > maxBytes
  }

  class OutputLedger {
    var bytes: int
    var entries: nat
    var truncated: bool
    const maxBytes: int
    /** What the sink has received and how often the limit was reported. */
    var sunk: seq<Text>
    var limitReports: nat

    ghost predicate Valid()
      reads this
    {
      && bytes == |ArrayJson(sunk)|
      && entries == |sunk|
      && limitReports == (if truncated then 1 else 0)
      && (maxBytes >= 2 ==> bytes <= maxBytes)
    }

    constructor (maxBytes: int)
      ensures Valid() && this.maxBytes == maxBytes && sunk == [] && !truncated
    {
      bytes, entries, truncated := 2, 0, false;
      this.maxBytes := maxBytes;
      sunk, limitReports := [], 0;
    }

    method Push(text: Text)
      requires Valid()
      modifies this
      ensures Valid()
      ensures old(truncated) ==> truncated && sunk == old(sunk)
      ensures !old(truncated) ==> (truncated <==> |ArrayJson(old(sunk) + [text])| > maxBytes)
      ensures !truncated ==> sunk == old(sunk) + [text]
      ensures !old(truncated) && truncated ==> LastPiece(old(sunk), sunk, text, maxBytes)
    {
      hide Quote, Elements;
      if truncated {
        return;
      }
      ghost var before := sunk;
      var separator := if entries > 0 then 1 else 0;
      var available := maxBytes - bytes - separator;
      ArrayJsonSnoc(before, text);
      var cost := JsonStringBytesUpTo(text, AtMost(available));
      if cost.None? {
        truncated := true;
        var prefix := TruncateJsonString(text, available);
        forall e | |prefix| < e <= |text| ensures |ArrayJson(before + [text[..e]])| > maxBytes {
          ArrayJsonSnoc(before, text[..e]);
        }
        if |prefix| > 0 {
          var exact := JsonStringBytes(prefix);
          ArrayJsonSnoc(before, prefix);
          bytes := bytes + exact + separator;
          entries := entries + 1;
          sunk := sunk + [prefix];
        }
        limitReports := limitReports + 1;
        return;
      }
      bytes := bytes + cost.value + separator;
      entries := entries + 1;
      sunk := sunk + [text];
    }

    /** Push a whole program's lines: a prefix of them is sunk, then at most one last piece. */
    method PushAll(lines: seq<Text>)
      requires Valid() && !truncated && sunk == []
      modifies this
      ensures Valid()
      ensures !truncated ==> sunk == lines && |ArrayJson(lines)| == bytes
      ensures truncated ==> exists k :: 0 <= k < |lines| && CutIn(lines, k, sunk, maxBytes)
    {
      hide Quote, Elements;
      for i := 0 to |lines|
        invariant Valid()
        invariant !truncated ==> sunk == lines[..i]
        invariant truncated ==> exists k :: 0 <= k < i && CutIn(lines, k, sunk, maxBytes)
      {
        ghost var cut := truncated;
        Push(lines[i]);
        if truncated && !cut {
          assert CutIn(lines, i, sunk, maxBytes);
        }
      }
    }
  }

  /** The output is cut in line `k`: everything before it was sunk whole, it did not fit. */
  ghost predicate CutIn(lines: seq<Text>, k: nat, sunk: seq<Text>, maxBytes: int)
    requires k < |lines|
  {
    && |ArrayJson(lines[..k] + [lines[k]])| > maxBytes
    && LastPiece(lines[..k], sunk, lines[k], maxBytes)
  }

  method JsonStringBytes(text: Text) returns (bytes: nat)
    ensures bytes == |Quote(text)|
  {
    var r := JsonStringBytesUpTo(text, Unlimited);
    return r.value;
  }
}
