/** Decimal numerals in ASCII, as the agent prints and parses them. */
module Decimal {
  import opened Prelude

  predicate IsDigit(b: Byte) { 48 <= b <= 57 }

  function Print(n: nat): (text: seq<Byte>)
    ensures |text| >= 1
  {
    if n < 10 then [48 + n] else Print(n / 10) + [48 + n % 10]
  }

  /** The value of a string of digits, or nothing when some byte is not a digit. */
  function Digits(text: seq<Byte>): Option<nat> {
    if text == [] then Some(0)
    else
      var n := |text| - 1;
      match Digits(text[..n])
      case None => None
      case Some(high) => if IsDigit(text[n]) then Some(10 * high + text[n] - 48) else None
  }

  /** Print with leading zeros up to a width; wider numbers are printed whole. */
  function Pad(n: nat, width: nat): (text: seq<Byte>)
    ensures |text| >= width
  {
    Zeros(width - |Print(n)|) + Print(n)
  }

  function Zeros(count: int): (text: seq<Byte>)
    ensures |text| == Max(0, count)
  {
    if count <= 0 then [] else Zeros(count - 1) + [48]
  }

  /** Reading undoes printing. */
  lemma {:induction false} DigitsPrint(n: nat)
    ensures Digits(Print(n)) == Some(n)
    ensures forall b :: b in Print(n) ==> IsDigit(b)
  {
    if n >= 10 {
      DigitsPrint(n / 10);
      assert Print(n)[..|Print(n)| - 1] == Print(n / 10);
    } else {
      assert [48 + n][..0] == [];
      assert Digits([]) == Some(0);
    }
  }

  /** What reads as a number is digits only. */
  lemma {:induction false} DigitsExactly(text: seq<Byte>)
    ensures Digits(text).Some? <==> forall b :: b in text ==> IsDigit(b)
  {
    if text != [] {
      var n := |text| - 1;
      DigitsExactly(text[..n]);
      assert text == text[..n] + [text[n]];
    }
  }

  lemma {:induction false} NoLeadingZero(n: nat)
    ensures Print(n)[0] == 48 ==> n == 0
  {
    if n >= 10 { NoLeadingZero(n / 10); }
  }

  lemma DigitsSnoc(text: seq<Byte>, b: Byte)
    requires IsDigit(b) && Digits(text).Some?
    ensures Digits(text + [b]) == Some(10 * Digits(text).value + b - 48)
  {
  }

  lemma {:induction false} DigitsConcatZeros(count: int, text: seq<Byte>)
    ensures Digits(Zeros(count) + text) == Digits(text)
    decreases |text|
  {
    if text == [] {
      assert Zeros(count) + [] == Zeros(count);
      DigitsZeros(count);
    } else {
      var n := |text| - 1;
      DigitsConcatZeros(count, text[..n]);
      assert (Zeros(count) + text)[..|Zeros(count) + text| - 1] == Zeros(count) + text[..n];
    }
  }

  lemma {:induction false} DigitsZeros(count: int)
    ensures Digits(Zeros(count)) == Some(0)
  {
    hide Digits;
    DigitsNothing();
    if count > 0 {
      DigitsZeros(count - 1);
      DigitsSnoc(Zeros(count - 1), 48);
    }
  }

  lemma DigitsNothing()
    ensures Digits([]) == Some(0)
  {
  }

  /** Padding does not change what is read. */
  lemma DigitsPad(n: nat, width: nat)
    ensures Digits(Pad(n, width)) == Some(n)
  {
    DigitsPrint(n);
    DigitsConcatZeros(width - |Print(n)|, Print(n));
  }

  /** Numbers below a hundred take at most two digits. */
  lemma PadTwo(n: nat)
    requires n < 100
    ensures |Pad(n, 2)| == 2
  {
    if n >= 10 { assert |Print(n / 10)| == 1; }
  }
}
