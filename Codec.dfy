/** The number and label encoders of `Command` (whitespace/Commands.py:44-71).

    A label is its binary digits, most significant first, Space for 0 and Tab
    for 1, closed by a linefeed; a number is a sign character (Space for
    positive, Tab for negative) followed by the digits of its magnitude and a
    linefeed.  Zero has no digits, so both encoders special-case it with one
    Space digit.  The decoders live in the parser (module Parsing) and the
    round trips in module Minifier. */
module Codec {
  import opened Base

  /** The character of one binary digit. */
  function BitChar(bit: nat): char
  {
    if bit == 0 then ' ' else '\t'
  }

  predicate IsBitChar(c: char) { c == ' ' || c == '\t' }

  /** The binary digits of n, most significant first, with no leading zero;
      zero has no digits. */
  function Bits(n: nat): (r: string)
    ensures forall i :: 0 <= i < |r| ==> IsBitChar(r[i])
    ensures n == 0 <==> r == []
    ensures n > 0 ==> r[0] == '\t'
  {
    if n == 0 then [] else Bits(n / 2) + [BitChar(n % 2)]
  }

  /** Python's `s[::-1]`. */
  function Reverse(s: string): (r: string)
    ensures |r| == |s|
    ensures forall i :: 0 <= i < |s| ==> r[i] == s[|s| - 1 - i]
  {
    if s == [] then [] else [s[|s| - 1]] + Reverse(s[..|s| - 1])
  }

  lemma ReverseSnoc(s: string, c: char)
    ensures Reverse(s + [c]) == [c] + Reverse(s)
  {
    assert (s + [c])[..|s|] == s;
  }

  /** `encodeLabel`: a label's digits and a linefeed, with " \n" for 0.  A
      negative label skips the loop and encodes as a lone linefeed. */
  function EncodeLabel(n: int): (r: string)
    ensures |r| > 0 && r[|r| - 1] == '\n'
    ensures forall i :: 0 <= i < |r| - 1 ==> IsBitChar(r[i])
  {
    if n == 0 then " \n"
    else if n > 0 then Bits(n) + "\n"
    else "\n"
  }

  /** `encodeNumber` as its authors intended it: sign, digits of the magnitude,
      linefeed, and "  \n" for 0.  For n >= 0 it agrees with the loop as
      written (EncodeNumberAsWritten); for n < 0 the loop as written never
      ends, and this definition encodes the magnitude as the parser reads it. */
  function EncodeNumber(n: int): (r: string)
    ensures |r| >= 3 && r[|r| - 1] == '\n'
    ensures r[0] == (if n < 0 then '\t' else ' ')
    ensures forall i :: 1 <= i < |r| - 1 ==> IsBitChar(r[i])
    ensures n != 0 ==> r[1] == '\t'
  {
    if n == 0 then "  \n"
    else if n > 0 then " " + Bits(n) + "\n"
    else "\t" + Bits(-n) + "\n"
  }

  /** The loop of `encodeLabel` (whitespace/Commands.py:60-71): collect the
      low digits, then reverse them and append the linefeed. */
  method EncodeLabelLoop(n: int) returns (out: string)
    ensures out == EncodeLabel(n)
  {
    if n == 0 {
      return " \n";
    }
    out := "";
    var m := n;
    while m > 0
      invariant if n > 0 then m >= 0 && Bits(n) == Bits(m) + Reverse(out) else m == n && out == []
    {
      var bit := m % 2;
      ReverseSnoc(out, BitChar(bit));
      assert Bits(m) == Bits(m / 2) + [BitChar(bit)];
      out := out + [BitChar(bit)];
      m := m / 2;
    }
    assert n > 0 ==> Bits(n) == Reverse(out);
    out := Reverse(out);
    out := out + "\n";
  }

  /** The loop of `encodeNumber` (whitespace/Commands.py:45-56), with Python's
      `%` and `//`.  It only returns for n >= 0: see NegativeNeverTerminates. */
  method EncodeNumberAsWritten(n: int) returns (out: string)
    requires n >= 0
    ensures out == EncodeNumber(n)
  {
    if n == 0 {
      return "  \n";
    }
    out := "";
    var signChar := if n > 0 then ' ' else '\t';
    var m := n;
    while m > 0 || m < 0
      invariant m >= 0
      invariant Bits(n) == Bits(m) + Reverse(out)
      decreases m
    {
      var bit := FloorMod(m, 2);
      ReverseSnoc(out, BitChar(bit));
      out := out + [BitChar(bit)];
      m := FloorDiv(m, 2);
    }
    out := Reverse(out);
    out := [signChar] + out + "\n";
  }

  /** The value of the loop variable of `encodeNumber` after k iterations. */
  function Halvings(n: int, k: nat): int
    decreases k
  {
    if k == 0 then n else Halvings(FloorDiv(n, 2), k - 1)
  }

  /** For a negative n the loop variable of `encodeNumber` stays negative after
      any number of iterations (`n // 2` of a negative number is negative, and
      settles at -1), so the guard `n > 0 or n < 0` never fails and the call
      never returns. */
  lemma {:induction false} NegativeNeverTerminates(n: int, k: nat)
    requires n < 0
    ensures Halvings(n, k) < 0
    decreases k
  {
    if k > 0 {
      NegativeNeverTerminates(FloorDiv(n, 2), k - 1);
    }
  }
}
