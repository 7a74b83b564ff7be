/** The minifier round trip (whitespace/Commands.py:36-71, whitespace/test/test_minifier.py:16-34):
    parsing the minified text of a program gives back its commands, line
    numbers aside.

    The text is read through any token stream that spells it, one token per
    character, Space, Tab or Linefeed as the language defines them.  The
    decoders are the parser's (module Parsing), the encoders the commands'
    (modules Codec and Commands). */
module Minifier {
  import opened Base
  import opened Lexer
  import opened Codec
  import opened Commands
  import opened Parsing

  /** The value of one digit character: Space 0, anything else 1. */
  function Digit(c: char): nat
  {
    if c == ' ' then 0 else 1
  }

  /** The shift-accumulate of the digits of b, most significant first, onto acc. */
  function Accumulate(acc: int, b: string): int
    decreases |b|
  {
    if b == [] then acc else Accumulate(2 * acc + Digit(b[0]), b[1..])
  }

  /** Appending a digit doubles the value and adds the digit. */
  lemma {:induction false} AccumulateSnoc(acc: int, b: string, c: char)
    ensures Accumulate(acc, b + [c]) == 2 * Accumulate(acc, b) + Digit(c)
    decreases |b|
  {
    if b != [] {
      assert (b + [c])[1..] == b[1..] + [c];
      AccumulateSnoc(2 * acc + Digit(b[0]), b[1..], c);
    } else {
      assert [] + [c] == [c];
    }
  }

  /** The digits `encodeLabel` writes read back as the number. */
  lemma {:induction false} BitsReadBack(n: nat)
    ensures Accumulate(0, Bits(n)) == n
    decreases n
  {
    if n > 0 {
      BitsReadBack(n / 2);
      AccumulateSnoc(0, Bits(n / 2), BitChar(n % 2));
    }
  }

  /** Spelling a concatenation is spelling each part in turn. */
  lemma SpellsSplit(ts: TokenStream, pos: nat, a: string, b: string)
    requires SpellsAt(ts, pos, a + b)
    ensures SpellsAt(ts, pos, a) && SpellsAt(ts, pos + |a|, b)
  {
    forall i | 0 <= i < |b| ensures TokenAt(ts, pos + |a| + i).kind == CharKind(b[i]) {
      assert (a + b)[|a| + i] == b[i];
    }
    forall i | 0 <= i < |a| ensures TokenAt(ts, pos + i).kind == CharKind(a[i]) {
      assert (a + b)[i] == a[i];
    }
  }

  /** The parser's digit loop over spelled digits, stopped by a linefeed. */
  lemma {:induction false} ParseBitsReads(ts: TokenStream, pos: nat, acc: int, b: string)
    requires SpellsAt(ts, pos, b + "\n")
    requires forall i :: 0 <= i < |b| ==> IsBitChar(b[i])
    ensures ParseBits(ts, pos, acc) == (Accumulate(acc, b), pos + |b| + 1)
    decreases |b|
  {
    assert TokenAt(ts, pos + |b|).kind == CharKind((b + "\n")[|b|]);
    if b != [] {
      assert TokenAt(ts, pos + 0).kind == CharKind((b + "\n")[0]);
      assert (b + "\n")[1..] == b[1..] + "\n";
      SpellsSplit(ts, pos, [b[0]], b[1..] + "\n");
      ParseBitsReads(ts, pos + 1, 2 * acc + Digit(b[0]), b[1..]);
    }
  }

  /** `parseLabel(encodeLabel(n)) == n` for every label n >= 0. */
  lemma LabelRoundTrip(ts: TokenStream, pos: nat, n: nat)
    requires SpellsAt(ts, pos, EncodeLabel(n))
    ensures LabelAt(ts, pos) == (n, pos + |EncodeLabel(n)|)
  {
    if n == 0 {
      assert EncodeLabel(n) == " " + "\n";
      ParseBitsReads(ts, pos, 0, " ");
    } else {
      BitsReadBack(n);
      ParseBitsReads(ts, pos, 0, Bits(n));
    }
  }

  /** The digits of `encodeNumber(n)`: the bits of |n|, a single Space for 0. */
  function Magnitude(n: int): string
  {
    if n == 0 then " " else Bits(if n < 0 then -n else n)
  }

  /** `encodeNumber(n)` is a sign character, the magnitude's digits and a
      linefeed, and the digits read back as |n|. */
  lemma NumberText(n: int)
    ensures EncodeNumber(n) == [if n < 0 then '\t' else ' '] + (Magnitude(n) + "\n")
    ensures forall i :: 0 <= i < |Magnitude(n)| ==> IsBitChar(Magnitude(n)[i])
    ensures Accumulate(0, Magnitude(n)) == if n < 0 then -n else n
  {
    if n != 0 {
      BitsReadBack(if n < 0 then -n else n);
    }
  }

  /** `parseNumber(encodeNumber(n)) == n` for every number n. */
  lemma NumberRoundTrip(ts: TokenStream, pos: nat, n: int)
    requires SpellsAt(ts, pos, EncodeNumber(n))
    ensures NumberAt(ts, pos) == (n, pos + |EncodeNumber(n)|)
  {
    var sign := if n < 0 then '\t' else ' ';
    NumberText(n);
    SpellsSplit(ts, pos, [sign], Magnitude(n) + "\n");
    assert TokenAt(ts, pos + 0).kind == CharKind([sign][0]);
    ParseBitsReads(ts, pos + 1, 0, Magnitude(n));
  }

  /** Without its label prefix, a minified command parses back to itself,
      with the pending label as its label, on the line of the opcode. */
  lemma BodyRoundTrip(ts: TokenStream, pos: nat, c: Command)
    requires Minifiable(c)
    requires SpellsAt(ts, pos, OpcodeText(c.op) + Operand(c))
    ensures var r := NextCommandAt(ts, pos, c.labelId);
            && r.Ok? && r.value.cmd.Some?
            && r.value.cmd.value == c.(line := r.value.cmd.value.line)
            && r.value.pos == pos + |OpcodeText(c.op) + Operand(c)|
            && r.value.pending == NoLabel
  {
    if c.op.HasOperand() {
      NumberBodyRoundTrip(ts, pos, c);
    } else if c.op.IsFlow() {
      FlowBodyRoundTrip(ts, pos, c);
    } else {
      PlainBodyRoundTrip(ts, pos, c);
    }
  }

  /** BodyRoundTrip for the commands that carry a number. */
  lemma NumberBodyRoundTrip(ts: TokenStream, pos: nat, c: Command)
    requires Minifiable(c) && c.op.HasOperand()
    requires SpellsAt(ts, pos, OpcodeText(c.op) + Operand(c))
    ensures var r := NextCommandAt(ts, pos, c.labelId);
            && r.Ok? && r.value.cmd.Some?
            && r.value.cmd.value == c.(line := r.value.cmd.value.line)
            && r.value.pos == pos + |OpcodeText(c.op) + Operand(c)|
            && r.value.pending == NoLabel
  {
    var k := |OpcodeText(c.op)|;
    SpellsSplit(ts, pos, OpcodeText(c.op), Operand(c));
    ParsesOpcode(ts, pos, c.labelId, c.op);
    NextCommandMinifiable(ts, pos, c.labelId);
    NumberRoundTrip(ts, pos + k, c.operand);
  }

  /** BodyRoundTrip for the flow-control commands with a target label. */
  lemma FlowBodyRoundTrip(ts: TokenStream, pos: nat, c: Command)
    requires Minifiable(c) && c.op.IsFlow()
    requires SpellsAt(ts, pos, OpcodeText(c.op) + Operand(c))
    ensures var r := NextCommandAt(ts, pos, c.labelId);
            && r.Ok? && r.value.cmd.Some?
            && r.value.cmd.value == c.(line := r.value.cmd.value.line)
            && r.value.pos == pos + |OpcodeText(c.op) + Operand(c)|
            && r.value.pending == NoLabel
  {
    var k := |OpcodeText(c.op)|;
    SpellsSplit(ts, pos, OpcodeText(c.op), Operand(c));
    ParsesOpcode(ts, pos, c.labelId, c.op);
    NextCommandMinifiable(ts, pos, c.labelId);
    LabelRoundTrip(ts, pos + k, c.targetLabel);
  }

  /** BodyRoundTrip for the commands without operand. */
  lemma PlainBodyRoundTrip(ts: TokenStream, pos: nat, c: Command)
    requires Minifiable(c) && !c.op.HasOperand() && !c.op.IsFlow()
    requires SpellsAt(ts, pos, OpcodeText(c.op) + Operand(c))
    ensures var r := NextCommandAt(ts, pos, c.labelId);
            && r.Ok? && r.value.cmd.Some?
            && r.value.cmd.value == c.(line := r.value.cmd.value.line)
            && r.value.pos == pos + |OpcodeText(c.op) + Operand(c)|
            && r.value.pending == NoLabel
  {
    var k := |OpcodeText(c.op)|;
    SpellsSplit(ts, pos, OpcodeText(c.op), Operand(c));
    ParsesOpcode(ts, pos, c.labelId, c.op);
    NextCommandMinifiable(ts, pos, c.labelId);
  }

  /** `Parser(c.minified()).nextCommand()` is c, line aside, and reads
      exactly the minified text. */
  lemma CommandRoundTrip(ts: TokenStream, pos: nat, c: Command)
    requires Minifiable(c)
    requires SpellsAt(ts, pos, Minified(c))
    ensures var r := NextCommandAt(ts, pos, NoLabel);
            && r.Ok? && r.value.cmd.Some?
            && SameIgnoringLine(r.value.cmd.value, c)
            && r.value.cmd.value == c.(line := r.value.cmd.value.line)
            && r.value.pos == pos + |Minified(c)|
            && r.value.pending == NoLabel
  {
    var body := OpcodeText(c.op) + Operand(c);
    if c.labelId == NoLabel {
      assert Minified(c) == body;
      BodyRoundTrip(ts, pos, c);
    } else {
      LabelledRoundTrip(ts, pos, c);
    }
  }

  /** A labelled command: the mark, the label, then the body. */
  lemma LabelledRoundTrip(ts: TokenStream, pos: nat, c: Command)
    requires Minifiable(c) && c.labelId != NoLabel
    requires SpellsAt(ts, pos, Minified(c))
    ensures var r := NextCommandAt(ts, pos, NoLabel);
            && r.Ok? && r.value.cmd.Some?
            && r.value.cmd.value == c.(line := r.value.cmd.value.line)
            && r.value.pos == pos + |Minified(c)|
            && r.value.pending == NoLabel
  {
    LabelledSplit(ts, pos, c);
    LabelRoundTrip(ts, pos + 3, c.labelId);
    MarkedBodyRoundTrip(ts, pos, c, pos + 3 + |EncodeLabel(c.labelId)|);
  }

  /** A labelled command's text: the mark, its label, then its body. */
  lemma LabelledText(c: Command)
    requires c.labelId != NoLabel
    ensures Minified(c) == MarkText + (EncodeLabel(c.labelId) + (OpcodeText(c.op) + Operand(c)))
  {
  }

  /** The spelling of a labelled command splits into the mark, the label and the body. */
  lemma LabelledSplit(ts: TokenStream, pos: nat, c: Command)
    requires Minifiable(c) && c.labelId != NoLabel
    requires SpellsAt(ts, pos, Minified(c))
    ensures var q := pos + 3 + |EncodeLabel(c.labelId)|;
            && |Minified(c)| == 3 + |EncodeLabel(c.labelId)| + |OpcodeText(c.op) + Operand(c)|
            && SpellsAt(ts, pos, MarkText)
            && SpellsAt(ts, pos + 3, EncodeLabel(c.labelId))
            && SpellsAt(ts, q, OpcodeText(c.op) + Operand(c))
  {
    var body := OpcodeText(c.op) + Operand(c);
    var mark := EncodeLabel(c.labelId);
    LabelledText(c);
    SpellsSplit(ts, pos, MarkText, mark + body);
    SpellsSplit(ts, pos + 3, mark, body);
  }

  lemma MarkedBodyRoundTrip(ts: TokenStream, pos: nat, c: Command, q: nat)
    requires Minifiable(c)
    requires SpellsAt(ts, pos, MarkText) && LabelAt(ts, pos + 3) == (c.labelId, q)
    requires SpellsAt(ts, q, OpcodeText(c.op) + Operand(c))
    ensures var r := NextCommandAt(ts, pos, NoLabel);
            && r.Ok? && r.value.cmd.Some?
            && r.value.cmd.value == c.(line := r.value.cmd.value.line)
            && r.value.pos == q + |OpcodeText(c.op) + Operand(c)|
            && r.value.pending == NoLabel
  {
    BodyRoundTrip(ts, q, c);
    MarkThenCommand(ts, pos, c.labelId, q);
  }

  /** After a label mark the parse goes on with the label read from it. */
  lemma MarkThenCommand(ts: TokenStream, pos: nat, mark: int, q: nat)
    requires SpellsAt(ts, pos, MarkText) && LabelAt(ts, pos + 3) == (mark, q)
    requires NextCommandAt(ts, q, mark).Ok? && NextCommandAt(ts, q, mark).value.cmd.Some?
    ensures NextCommandAt(ts, pos, NoLabel) == NextCommandAt(ts, q, mark)
  {
    MarkSetsLabel(ts, pos, NoLabel);
  }

  /** The minified text of a program is its first command's followed by the rest's. */
  lemma {:induction false} MinifyFront(p: seq<Command>)
    requires p != []
    ensures Minify(p) == Minified(p[0]) + Minify(p[1..])
    decreases |p|
  {
    if |p| > 1 {
      MinifyFront(p[..|p| - 1]);
      assert p[..|p| - 1][1..] == p[1..][..|p[1..]| - 1];
      assert p[..|p| - 1][0] == p[0];
    } else {
      assert p[1..] == [];
    }
  }

  /** `allCommands` after a command that matches the program's first one,
      followed by a list that matches the rest: a list that matches the
      whole program, lines aside. */
  lemma AllCommandsAfter(ts: TokenStream, pos: nat, p: seq<Command>, next: nat)
    requires pos <= next <= |ts.toks| && p != []
    requires var r := NextCommandAt(ts, pos, NoLabel);
             && r.Ok? && r.value.cmd.Some?
             && r.value.cmd.value == p[0].(line := r.value.cmd.value.line)
             && r.value.pos == next
             && r.value.pending == NoLabel
    ensures (var r := AllCommandsFrom(ts, next, NoLabel);
             && r.Ok? && |r.value| == |p[1..]|
             && forall i :: 0 <= i < |p[1..]| ==> r.value[i] == p[1..][i].(line := r.value[i].line))
            ==>
            (var r := AllCommandsFrom(ts, pos, NoLabel);
             && r.Ok? && |r.value| == |p|
             && forall i :: 0 <= i < |p| ==> r.value[i] == p[i].(line := r.value[i].line))
  {
    var x := NextCommandAt(ts, pos, NoLabel).value.cmd.value;
    var tail := AllCommandsFrom(ts, next, NoLabel);
    if tail.Ok? && |tail.value| == |p[1..]|
       && forall i :: 0 <= i < |p[1..]| ==> tail.value[i] == p[1..][i].(line := tail.value[i].line)
    {
      var rest := tail.value;
      assert AllCommandsFrom(ts, pos, NoLabel) == Ok([x] + rest);
      var r := [x] + rest;
      forall i | 0 <= i < |p| ensures r[i] == p[i].(line := r[i].line) {
        if i > 0 {
          assert r[i] == rest[i - 1] && p[i] == p[1..][i - 1];
        }
      }
    }
  }

  /** The spelling of a program splits into its first command's and the rest's. */
  lemma ProgramSplit(ts: TokenStream, pos: nat, p: seq<Command>)
    requires p != []
    requires SpellsAt(ts, pos, Minify(p)) && pos + |Minify(p)| == |ts.toks|
    ensures SpellsAt(ts, pos, Minified(p[0]))
    ensures SpellsAt(ts, pos + |Minified(p[0])|, Minify(p[1..]))
    ensures pos + |Minified(p[0])| + |Minify(p[1..])| == |ts.toks|
  {
    var first, rest := Minified(p[0]), Minify(p[1..]);
    MinifyFront(p);
    assert |Minify(p)| == |first| + |rest|;
    SpellsSplit(ts, pos, first, rest);
  }

  /** At the end of the stream `allCommands` finds nothing. */
  lemma NothingAtEnd(ts: TokenStream, pos: nat)
    requires pos == |ts.toks|
    ensures AllCommandsFrom(ts, pos, NoLabel) == Ok([])
  {
    NoneExactlyAtEof(ts, pos, NoLabel);
  }

  /** One command further: if the rest of a program parses back, so does the program. */
  lemma ProgramStep(ts: TokenStream, pos: nat, p: seq<Command>)
    requires p != [] && Minifiable(p[0])
    requires SpellsAt(ts, pos, Minified(p[0]))
    requires pos + |Minified(p[0])| <= |ts.toks|
    ensures (var r := AllCommandsFrom(ts, pos + |Minified(p[0])|, NoLabel);
             && r.Ok? && |r.value| == |p[1..]|
             && forall i :: 0 <= i < |p[1..]| ==> r.value[i] == p[1..][i].(line := r.value[i].line))
            ==>
            (var r := AllCommandsFrom(ts, pos, NoLabel);
             && r.Ok? && |r.value| == |p|
             && forall i :: 0 <= i < |p| ==> r.value[i] == p[i].(line := r.value[i].line))
  {
    CommandRoundTrip(ts, pos, p[0]);
    AllCommandsAfter(ts, pos, p, pos + |Minified(p[0])|);
  }

  /** Parsing a program's minified text, up to the end of the stream, gives
      back its commands in order, lines aside. */
  lemma {:induction false} ProgramRoundTripFrom(ts: TokenStream, pos: nat, p: seq<Command>)
    requires forall i :: 0 <= i < |p| ==> Minifiable(p[i])
    requires SpellsAt(ts, pos, Minify(p)) && pos + |Minify(p)| == |ts.toks|
    ensures var r := AllCommandsFrom(ts, pos, NoLabel);
            && r.Ok? && |r.value| == |p|
            && forall i :: 0 <= i < |p| ==> r.value[i] == p[i].(line := r.value[i].line)
    decreases |p|
  {
    if p == [] {
      NothingAtEnd(ts, pos);
    } else {
      ProgramSplit(ts, pos, p);
      ProgramStep(ts, pos, p);
      ProgramRoundTripFrom(ts, pos + |Minified(p[0])|, p[1..]);
    }
  }

  /** `Parser(minify(prog)).allCommands()` equals prog, ignoring line numbers. */
  lemma MinifyThenParse(ts: TokenStream, p: seq<Command>)
    requires forall i :: 0 <= i < |p| ==> Minifiable(p[i])
    requires SpellsAt(ts, 0, Minify(p)) && |ts.toks| == |Minify(p)|
    ensures Parse(ts).Ok? && |Parse(ts).value| == |p|
    ensures forall i :: 0 <= i < |p| ==> SameIgnoringLine(Parse(ts).value[i], p[i])
  {
    ProgramRoundTripFrom(ts, 0, p);
  }

  /** And every parsed program can be minified and parsed back. */
  lemma ParseThenMinify(ts: TokenStream, ts': TokenStream)
    requires Parse(ts).Ok?
    requires SpellsAt(ts', 0, Minify(Parse(ts).value)) && |ts'.toks| == |Minify(Parse(ts).value)|
    ensures Parse(ts').Ok? && |Parse(ts').value| == |Parse(ts).value|
    ensures forall i :: 0 <= i < |Parse(ts).value| ==> SameIgnoringLine(Parse(ts').value[i], Parse(ts).value[i])
  {
    ParsedCommandsMinifiable(ts, 0, NoLabel);
    MinifyThenParse(ts', Parse(ts).value);
  }
}
