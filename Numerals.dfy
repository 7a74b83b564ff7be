/** The text side of the interpreter's I/O: Python's `readline` on the input
    text, Python's `int` on a line or a character, and the decimal text that
    `print` writes for a number.  ReadNum and ReadChar (whitespace/Commands.py:354-398)
    are built on these. */
module Numerals {
  import opened Base

  /** The characters `str.strip` and `int` treat as whitespace, restricted to ASCII. */
  predicate IsSpace(c: char)
  {
    (9 <= c as int <= 13) || (28 <= c as int <= 32)
  }

  predicate IsDigit(c: char) { '0' <= c <= '9' }

  /** The value of one decimal digit character. */
  function DigitValue(c: char): (r: Option<nat>)
    ensures r.Some? <==> IsDigit(c)
    ensures r.Some? ==> r.value < 10
  {
    if IsDigit(c) then Some((c - '0') as nat) else None
  }

  /** The character of a digit. */
  function DigitChar(d: nat): (c: char)
    requires d < 10
    ensures IsDigit(c) && DigitValue(c) == Some(d)
  {
    (d as int + '0' as int) as char
  }

  /** `file.readline()`: everything up to and including the first linefeed,
      or all that is left; and what remains after it. */
  function ReadLine(s: string): (r: (string, string))
    ensures r.0 + r.1 == s
    ensures r.1 != [] ==> |r.0| > 0 && r.0[|r.0| - 1] == '\n'
    ensures s != [] ==> r.0 != []
  {
    if s == [] then ([], [])
    else if s[0] == '\n' then ("\n", s[1..])
    else
      var (line, rest) := ReadLine(s[1..]);
      ([s[0]] + line, rest)
  }

  /** The line `readline` returns holds no linefeed before its last character. */
  lemma {:induction false} ReadLineStopsAtLinefeed(s: string)
    ensures forall i :: 0 <= i < |ReadLine(s).0| - 1 ==> ReadLine(s).0[i] != '\n'
    decreases |s|
  {
    if s != [] && s[0] != '\n' {
      ReadLineStopsAtLinefeed(s[1..]);
    }
  }

  /** `str.lstrip()`. */
  function TrimStart(s: string): (r: string)
    ensures r != [] ==> !IsSpace(r[0])
  {
    if s != [] && IsSpace(s[0]) then TrimStart(s[1..]) else s
  }

  /** `str.rstrip()`. */
  function TrimEnd(s: string): (r: string)
    ensures r != [] ==> !IsSpace(r[|r| - 1])
  {
    if s != [] && IsSpace(s[|s| - 1]) then TrimEnd(s[..|s| - 1]) else s
  }

  predicate AllDigits(s: string)
  {
    forall i :: 0 <= i < |s| ==> IsDigit(s[i])
  }

  /** The value of a run of decimal digits, most significant first. */
  function DigitsValue(s: string): nat
    requires AllDigits(s)
  {
    if s == [] then 0 else 10 * DigitsValue(s[..|s| - 1]) + DigitValue(s[|s| - 1]).value
  }

  /** Python's `int(text)`: surrounding whitespace, then a signed number. */
  function ParseInt(text: string): Option<int>
  {
    ParseSigned(TrimEnd(TrimStart(text)))
  }

  /** An optional sign and at least one decimal digit; anything else raises
      ValueError (None). */
  function ParseSigned(t: string): Option<int>
  {
    var negative := t != [] && t[0] == '-';
    var body := if t != [] && (t[0] == '-' || t[0] == '+') then t[1..] else t;
    if body != [] && AllDigits(body) then
      Some(if negative then -(DigitsValue(body) as int) else DigitsValue(body))
    else None
  }

  /** The decimal digits of n, most significant first. */
  function NatText(n: nat): (r: string)
    ensures r != [] && AllDigits(r)
  {
    if n < 10 then [DigitChar(n)] else NatText(n / 10) + [DigitChar(n % 10)]
  }

  /** `str(n)`, what `print(n)` writes. */
  function IntText(n: int): (r: string)
    ensures r != [] && !IsSpace(r[0]) && !IsSpace(r[|r| - 1])
  {
    if n < 0 then "-" + NatText(-n) else NatText(n)
  }

  lemma {:induction false} NatTextValue(n: nat)
    ensures DigitsValue(NatText(n)) == n
    decreases n
  {
    if n >= 10 {
      var r := NatText(n);
      assert r[..|r| - 1] == NatText(n / 10);
      NatTextValue(n / 10);
    }
  }

  /** A line holding the printed form of a number, with any whitespace around
      it and the linefeed `readline` keeps, reads back as that number. */
  lemma ParseIntText(n: int, before: string, after: string)
    requires forall i :: 0 <= i < |before| ==> IsSpace(before[i])
    requires forall i :: 0 <= i < |after| ==> IsSpace(after[i])
    ensures ParseInt(before + IntText(n) + after) == Some(n)
  {
    var t := IntText(n);
    StripPadded(t, before, after);
    SignedText(n);
  }

  lemma SignedText(n: int)
    ensures ParseSigned(IntText(n)) == Some(n)
  {
    var t := IntText(n);
    NatTextValue(if n < 0 then -n else n);
    if n < 0 {
      assert t[1..] == NatText(-n);
    }
  }

  lemma StripPadded(t: string, before: string, after: string)
    requires forall i :: 0 <= i < |before| ==> IsSpace(before[i])
    requires forall i :: 0 <= i < |after| ==> IsSpace(after[i])
    requires t != [] && !IsSpace(t[0]) && !IsSpace(t[|t| - 1])
    ensures TrimEnd(TrimStart(before + t + after)) == t
  {
    assert before + t + after == before + (t + after);
    TrimStartSpaces(before, t + after);
    TrimEndSpaces(t, after);
  }

  lemma {:induction false} TrimStartSpaces(sp: string, s: string)
    requires forall i :: 0 <= i < |sp| ==> IsSpace(sp[i])
    requires s != [] && !IsSpace(s[0])
    ensures TrimStart(sp + s) == s
    decreases |sp|
  {
    if sp != [] {
      assert (sp + s)[1..] == sp[1..] + s;
      TrimStartSpaces(sp[1..], s);
    } else {
      assert sp + s == s;
    }
  }

  lemma {:induction false} TrimEndSpaces(s: string, sp: string)
    requires forall i :: 0 <= i < |sp| ==> IsSpace(sp[i])
    requires s != [] && !IsSpace(s[|s| - 1])
    ensures TrimEnd(s + sp) == s
    decreases |sp|
  {
    if sp != [] {
      assert (s + sp)[..|s + sp| - 1] == s + sp[..|sp| - 1];
      TrimEndSpaces(s, sp[..|sp| - 1]);
    } else {
      assert s + sp == s;
    }
  }

  /** `int("  \t 103\n")` is 103 (whitespace/test/test_commands.py:21). */
  lemma ParsesPaddedLine()
    ensures ParseInt("  \t " + IntText(103) + "\n") == Some(103)
  {
    ParseIntText(103, "  \t ", "\n");
  }
}
