/** The recursive-descent parser of whitespace/Parser.py, over a stream of
    tokens.

    The parser reads from a `Tokenizer` (a module that is not part of this
    model), so the stream is a sequence of tokens followed by an endless run
    of EOF tokens on one line: past the end the position no longer moves.
    The functions (…At) are the specification, one per parser method, over
    the position in the stream and the pending label; class Parser is the
    object with its `label` field and its loops, proved to compute them. */
module Parsing {
  import opened Base
  import opened Lexer
  import opened Commands

  /** The tokens `nextToken` returns before the end: never EOF. */
  type Tokens = s: seq<Token> | forall i :: 0 <= i < |s| ==> s[i].kind != Eof

  /** The tokens of the text, then EOF forever with the line of the end. */
  datatype TokenStream = TokenStream(toks: Tokens, eofLine: int)

  /** The token at a position. */
  function TokenAt(ts: TokenStream, pos: nat): Token
  {
    if pos < |ts.toks| then ts.toks[pos] else Token(Eof, ts.eofLine)
  }

  /** The position after reading the token at pos: EOF does not move it. */
  function Next(ts: TokenStream, pos: nat): nat
  {
    if pos < |ts.toks| then pos + 1 else pos
  }

  /** EOF stays EOF: reading it again yields EOF at the same position. */
  lemma EofIsSticky(ts: TokenStream, pos: nat)
    requires TokenAt(ts, pos).kind == Eof
    ensures Next(ts, pos) == pos && TokenAt(ts, Next(ts, pos)) == TokenAt(ts, pos)
  {
  }

  predicate IsBit(t: Token) { t.kind == Space || t.kind == Tab }

  /** The loop shared by `parseNumber` and `parseLabel`: shift in Space as 0
      and Tab as 1 until the first other token, which is consumed. */
  function ParseBits(ts: TokenStream, pos: nat, acc: int): (r: (int, nat))
    requires pos <= |ts.toks|
    ensures pos <= r.1 <= |ts.toks|
    ensures acc >= 0 ==> r.0 >= acc
    decreases |ts.toks| - pos
  {
    var t := TokenAt(ts, pos);
    if t.kind == Space then ParseBits(ts, pos + 1, 2 * acc)
    else if t.kind == Tab then ParseBits(ts, pos + 1, 2 * acc + 1)
    else (acc, Next(ts, pos))
  }

  /** `parseLabel`: the bits up to the first other token. */
  function LabelAt(ts: TokenStream, pos: nat): (r: (int, nat))
    requires pos <= |ts.toks|
    ensures pos <= r.1 <= |ts.toks|
  {
    ParseBits(ts, pos, 0)
  }

  /** `parseNumber`: a sign token (Space +, Tab -), then the bits of the
      magnitude; any other first token gives -1. */
  function NumberAt(ts: TokenStream, pos: nat): (r: (int, nat))
    requires pos <= |ts.toks|
    ensures pos <= r.1 <= |ts.toks|
  {
    var t := TokenAt(ts, pos);
    var p := Next(ts, pos);
    if t.kind == Space then ParseBits(ts, p, 0)
    else if t.kind == Tab then
      var (m, q) := ParseBits(ts, p, 0);
      (-m, q)
    else (-1, p)
  }

  /** The outcome of one parser method: the command (None where the source
      returns None), the position reached, and the pending label. */
  datatype Parsed = Parsed(cmd: Option<Command>, pos: nat, pending: int)

  /** A command built with `self.get_label()`: it takes the pending label,
      which is reset. */
  function Made(c: Command, pos: nat): Parsed
  {
    Parsed(Some(c), pos, NoLabel)
  }

  /** `parseStackManip`. */
  function StackManipAt(ts: TokenStream, pos: nat, pending: int): (r: Parsed)
    requires pos <= |ts.toks|
    ensures pos <= r.pos <= |ts.toks|
  {
    var t := TokenAt(ts, pos);
    var p1 := Next(ts, pos);
    if t.kind == Space then
      var (n, p2) := NumberAt(ts, p1);
      Made(WithOperand(Push, t.line, n, pending), p2)
    else if t.kind == Linefeed then
      var t2 := TokenAt(ts, p1);
      var p2 := Next(ts, p1);
      if t2.kind == Space then Made(Plain(Duplicate, t2.line, pending), p2)
      else if t2.kind == Tab then Made(Plain(Swap, t2.line, pending), p2)
      else if t2.kind == Linefeed then Made(Plain(Discard, t2.line, pending), p2)
      else Parsed(None, p2, pending)
    else if t.kind == Tab then
      var t2 := TokenAt(ts, p1);
      var p2 := Next(ts, p1);
      if t2.kind == Space then
        var (n, p3) := NumberAt(ts, p2);
        Made(WithOperand(Copy, t2.line, n, pending), p3)
      else if t2.kind == Linefeed then
        var (n, p3) := NumberAt(ts, p2);
        Made(WithOperand(Slide, t2.line, n, pending), p3)
      else Parsed(None, p2, pending)
    else Parsed(None, p1, pending)
  }

  /** `parseIO`. */
  function IOAt(ts: TokenStream, pos: nat, pending: int): (r: Parsed)
    requires pos <= |ts.toks|
    ensures pos <= r.pos <= |ts.toks|
  {
    var t := TokenAt(ts, pos);
    var p1 := Next(ts, pos);
    var t2 := TokenAt(ts, p1);
    var p2 := Next(ts, p1);
    if t.kind == Space then
      if t2.kind == Space then Made(Plain(OutChar, t2.line, pending), p2)
      else if t2.kind == Tab then Made(Plain(OutNum, t2.line, pending), p2)
      else Parsed(None, p2, pending)
    else if t.kind == Tab then
      if t2.kind == Space then Made(Plain(ReadChar, t2.line, pending), p2)
      else if t2.kind == Tab then Made(Plain(ReadNum, t2.line, pending), p2)
      else Parsed(None, p2, pending)
    else Parsed(None, p1, pending)
  }

  /** `parseArith`. */
  function ArithAt(ts: TokenStream, pos: nat, pending: int): (r: Parsed)
    requires pos <= |ts.toks|
    ensures pos <= r.pos <= |ts.toks|
  {
    var t := TokenAt(ts, pos);
    var p1 := Next(ts, pos);
    var t2 := TokenAt(ts, p1);
    var p2 := Next(ts, p1);
    if t.kind == Space then
      if t2.kind == Space then Made(Plain(Plus, t2.line, pending), p2)
      else if t2.kind == Tab then Made(Plain(Minus, t2.line, pending), p2)
      else if t2.kind == Linefeed then Made(Plain(Times, t2.line, pending), p2)
      else Parsed(None, p2, pending)
    else if t.kind == Tab then
      if t2.kind == Space then Made(Plain(IntDivide, t2.line, pending), p2)
      else if t2.kind == Tab then Made(Plain(Modulo, t2.line, pending), p2)
      else Parsed(None, p2, pending)
    else Parsed(None, p1, pending)
  }

  /** `parseHeap`. */
  function HeapAt(ts: TokenStream, pos: nat, pending: int): (r: Parsed)
    requires pos <= |ts.toks|
    ensures pos <= r.pos <= |ts.toks|
  {
    var t := TokenAt(ts, pos);
    var p1 := Next(ts, pos);
    if t.kind == Space then Made(Plain(WriteHeap, t.line, pending), p1)
    else if t.kind == Tab then Made(Plain(ReadHeap, t.line, pending), p1)
    else Parsed(None, p1, pending)
  }

  /** `parseFlowControl`.  A label mark sets the pending label and returns
      whatever `nextCommand` returns next, which is why this one can raise. */
  function FlowControlAt(ts: TokenStream, pos: nat, pending: int): (r: Result<Parsed>)
    requires pos <= |ts.toks|
    ensures r.Ok? ==> pos <= r.value.pos <= |ts.toks|
    ensures r.Ok? && r.value.cmd.Some? ==> r.value.pending == NoLabel
    decreases |ts.toks| - pos
  {
    var t := TokenAt(ts, pos);
    var p1 := Next(ts, pos);
    var t2 := TokenAt(ts, p1);
    var p2 := Next(ts, p1);
    if t.kind == Linefeed then
      if t2.kind == Linefeed then Ok(Made(Plain(End, t2.line, pending), p2))
      else Ok(Parsed(None, p2, pending))
    else if t.kind == Space then
      if t2.kind == Space then
        var (mark, p3) := LabelAt(ts, p2);
        NextCommandAt(ts, p3, mark)
      else if t2.kind == Linefeed then
        var (target, p3) := LabelAt(ts, p2);
        Ok(Made(Flow(Jump, t2.line, pending, target), p3))
      else if t2.kind == Tab then
        var (target, p3) := LabelAt(ts, p2);
        Ok(Made(Flow(CallSub, t2.line, pending, target), p3))
      else Ok(Parsed(None, p2, pending))
    else if t.kind == Tab then
      if t2.kind == Linefeed then Ok(Made(Plain(EndSub, t2.line, pending), p2))
      else if t2.kind == Space then
        var (target, p3) := LabelAt(ts, p2);
        Ok(Made(Flow(JumpZero, t2.line, pending, target), p3))
      else if t2.kind == Tab then
        var (target, p3) := LabelAt(ts, p2);
        Ok(Made(Flow(JumpNegative, t2.line, pending, target), p3))
      else Ok(Parsed(None, p2, pending))
    else Ok(Parsed(None, p1, pending))
  }

  /** `nextCommand`: None at EOF; otherwise dispatch on the first one or two
      tokens, and raise "Cannot parse command" (at the position reached)
      when the sub-parser returns None. */
  function NextCommandAt(ts: TokenStream, pos: nat, pending: int): (r: Result<Parsed>)
    requires pos <= |ts.toks|
    ensures r.Ok? ==> pos <= r.value.pos <= |ts.toks|
    ensures r.Ok? && r.value.cmd.Some? ==> r.value.pending == NoLabel && r.value.pos > pos
    ensures r.Ok? ==> (r.value.cmd.None? <==> TokenAt(ts, pos).kind == Eof)
    decreases |ts.toks| - pos
  {
    var t := TokenAt(ts, pos);
    var p1 := Next(ts, pos);
    if t.kind == Eof then Ok(Parsed(None, p1, pending))
    else
      var sub :=
        if t.kind == Space then Ok(StackManipAt(ts, p1, pending))
        else if t.kind == Linefeed then FlowControlAt(ts, p1, pending)
        else
          var t2 := TokenAt(ts, p1);
          var p2 := Next(ts, p1);
          if t2.kind == Space then Ok(ArithAt(ts, p2, pending))
          else if t2.kind == Linefeed then Ok(IOAt(ts, p2, pending))
          else if t2.kind == Tab then Ok(HeapAt(ts, p2, pending))
          else Ok(Parsed(None, p2, pending));
      match sub
      case Err(e) => Err(e)
      case Ok(p) => if p.cmd.None? then Err(ParseError(p.pos)) else Ok(p)
  }

  /** `allCommands`: the commands in order, up to the first None. */
  function AllCommandsFrom(ts: TokenStream, pos: nat, pending: int): Result<seq<Command>>
    requires pos <= |ts.toks|
    decreases |ts.toks| - pos
  {
    match NextCommandAt(ts, pos, pending)
    case Err(e) => Err(e)
    case Ok(p) =>
      if p.cmd.None? then Ok([])
      else
        match AllCommandsFrom(ts, p.pos, p.pending)
        case Err(e) => Err(e)
        case Ok(rest) => Ok([p.cmd.value] + rest)
  }

  /** `Parser(text).allCommands()` from the start of the stream. */
  function Parse(ts: TokenStream): Result<seq<Command>>
  {
    AllCommandsFrom(ts, 0, NoLabel)
  }

  // ---------------------------------------------------------------------
  // Properties of the parser

  /** The tokens from pos on are the classification of the characters of s. */
  predicate SpellsAt(ts: TokenStream, pos: nat, s: string)
  {
    && pos + |s| <= |ts.toks|
    && forall i {:trigger s[i]} :: 0 <= i < |s| ==> TokenAt(ts, pos + i).kind == CharKind(s[i])
  }

  /** A label is never negative, and an immediate non-bit token gives 0. */
  lemma LabelIsNatural(ts: TokenStream, pos: nat)
    requires pos <= |ts.toks|
    ensures LabelAt(ts, pos).0 >= 0
    ensures !IsBit(TokenAt(ts, pos)) ==> LabelAt(ts, pos) == (0, Next(ts, pos))
  {
  }

  /** A number takes its sign from its first token; a sign followed at once
      by a non-bit token is 0, and a first token that is no sign gives -1. */
  lemma NumberSign(ts: TokenStream, pos: nat)
    requires pos <= |ts.toks|
    ensures TokenAt(ts, pos).kind == Space ==> NumberAt(ts, pos).0 >= 0
    ensures TokenAt(ts, pos).kind == Tab ==> NumberAt(ts, pos).0 <= 0
    ensures IsBit(TokenAt(ts, pos)) && !IsBit(TokenAt(ts, pos + 1)) ==> NumberAt(ts, pos).0 == 0
    ensures !IsBit(TokenAt(ts, pos)) ==> NumberAt(ts, pos) == (-1, Next(ts, pos))
  {
    if IsBit(TokenAt(ts, pos)) {
      LabelIsNatural(ts, pos + 1);
    }
  }

  /** `nextCommand` at a command boundary that holds EOF returns None and
      leaves the position and the pending label alone; anywhere else it either
      returns a command or raises. */
  lemma NoneExactlyAtEof(ts: TokenStream, pos: nat, pending: int)
    requires pos <= |ts.toks|
    ensures TokenAt(ts, pos).kind == Eof ==> NextCommandAt(ts, pos, pending) == Ok(Parsed(None, pos, pending))
    ensures TokenAt(ts, pos).kind != Eof && NextCommandAt(ts, pos, pending).Ok? ==>
              NextCommandAt(ts, pos, pending).value.cmd.Some?
  {
    if TokenAt(ts, pos).kind == Eof {
      EofIsSticky(ts, pos);
    }
  }

  /** `nextCommand` raised "Cannot parse command". */
  predicate IsParseError(r: Result<Parsed>)
  {
    r.Err? && r.error.ParseError?
  }

  /** An opcode cut short by EOF raises a parse error, wherever EOF falls:
      after any first token; after the second token of a Tab or Linefeed
      opcode, or of a Space opcode other than Push (Space Space); after the
      third token of an arithmetic (Tab Space) or I/O (Tab Linefeed) opcode. */
  lemma EofInsideOpcode(ts: TokenStream, pos: nat, pending: int)
    requires pos < |ts.toks| && TokenAt(ts, pos).kind != Eof
    ensures TokenAt(ts, pos + 1).kind == Eof ==> IsParseError(NextCommandAt(ts, pos, pending))
    ensures TokenAt(ts, pos).kind != Space && TokenAt(ts, pos + 2).kind == Eof ==>
              IsParseError(NextCommandAt(ts, pos, pending))
    ensures TokenAt(ts, pos).kind == Space && TokenAt(ts, pos + 1).kind != Space && TokenAt(ts, pos + 2).kind == Eof ==>
              IsParseError(NextCommandAt(ts, pos, pending))
    ensures TokenAt(ts, pos).kind == Tab && TokenAt(ts, pos + 1).kind != Tab && TokenAt(ts, pos + 3).kind == Eof ==>
              IsParseError(NextCommandAt(ts, pos, pending))
  {
    if TokenAt(ts, pos + 1).kind == Eof {
      EofIsSticky(ts, pos + 1);
    } else if TokenAt(ts, pos + 2).kind == Eof {
      EofIsSticky(ts, pos + 2);
    } else if TokenAt(ts, pos + 3).kind == Eof {
      EofIsSticky(ts, pos + 3);
    }
  }

  /** The tokens of a label mark: Linefeed, Space, Space. */
  lemma SpellsMark(ts: TokenStream, pos: nat)
    requires SpellsAt(ts, pos, MarkText)
    ensures TokenAt(ts, pos).kind == Linefeed && TokenAt(ts, pos + 1).kind == Space
            && TokenAt(ts, pos + 2).kind == Space
  {
    assert TokenAt(ts, pos + 0).kind == CharKind(MarkText[0]);
    assert TokenAt(ts, pos + 1).kind == CharKind(MarkText[1]);
    assert TokenAt(ts, pos + 2).kind == CharKind(MarkText[2]);
  }

  /** A label mark at the very end of the input raises a parse error. */
  lemma MarkBeforeEof(ts: TokenStream, pos: nat, pending: int)
    requires SpellsAt(ts, pos, MarkText)
    requires TokenAt(ts, LabelAt(ts, pos + 3).1).kind == Eof
    ensures NextCommandAt(ts, pos, pending).Err?
    ensures NextCommandAt(ts, pos, pending).error.ParseError?
  {
    SpellsMark(ts, pos);
    NoneExactlyAtEof(ts, LabelAt(ts, pos + 3).1, LabelAt(ts, pos + 3).0);
  }

  /** A label mark produces no command of its own: the parse continues after
      the label with the label pending, replacing any label already pending. */
  lemma MarkSetsLabel(ts: TokenStream, pos: nat, pending: int)
    requires SpellsAt(ts, pos, MarkText)
    ensures NextCommandAt(ts, pos, pending) ==
              match NextCommandAt(ts, LabelAt(ts, pos + 3).1, LabelAt(ts, pos + 3).0)
              case Err(e) => Err(e)
              case Ok(p) => if p.cmd.None? then Err(ParseError(p.pos)) else Ok(p)
  {
    SpellsMark(ts, pos);
  }

  /** What `nextCommand` makes of an opcode's tokens at `pos`: the command
      of that class, on the line of the opcode's last token, carrying the
      pending label (which is reset), with its number or target label read
      from what follows. */
  ghost predicate ParsedAs(ts: TokenStream, pos: nat, pending: int, op: Op)
    requires OpcodeAt(ts, pos, op)
  {
    var k := |OpcodeText(op)|;
    var r := NextCommandAt(ts, pos, pending);
    && r.Ok? && r.value.cmd.Some? && r.value.pending == NoLabel
    && r.value.cmd.value.op == op
    && r.value.cmd.value.labelId == pending
    && r.value.cmd.value.line == TokenAt(ts, pos + k - 1).line
    && (op.HasOperand() ==>
          r.value.cmd.value.operand == NumberAt(ts, pos + k).0
          && r.value.pos == NumberAt(ts, pos + k).1)
    && (op.IsFlow() ==>
          r.value.cmd.value.targetLabel == LabelAt(ts, pos + k).0
          && r.value.cmd.value.targetPc == -1
          && r.value.pos == LabelAt(ts, pos + k).1)
    && (!op.HasOperand() && !op.IsFlow() ==>
          r.value.cmd.value == Plain(op, TokenAt(ts, pos + k - 1).line, pending)
          && r.value.pos == pos + k)
  }

  /** The tokens at pos are those of op's opcode, one per character. */
  predicate OpcodeAt(ts: TokenStream, pos: nat, op: Op)
  {
    var s := OpcodeText(op);
    && 2 <= |s| <= 4 && pos + |s| <= |ts.toks|
    && TokenAt(ts, pos).kind == CharKind(s[0])
    && TokenAt(ts, pos + 1).kind == CharKind(s[1])
    && (|s| > 2 ==> TokenAt(ts, pos + 2).kind == CharKind(s[2]))
    && (|s| > 3 ==> TokenAt(ts, pos + 3).kind == CharKind(s[3]))
  }

  /** A spelled opcode gives its tokens one by one. */
  lemma SpellsOpcode(ts: TokenStream, pos: nat, op: Op)
    requires SpellsAt(ts, pos, OpcodeText(op))
    ensures OpcodeAt(ts, pos, op)
  {
    var s := OpcodeText(op);
    assert TokenAt(ts, pos + 0).kind == CharKind(s[0]);
    assert TokenAt(ts, pos + 1).kind == CharKind(s[1]);
    if |s| > 2 {
      assert TokenAt(ts, pos + 2).kind == CharKind(s[2]);
    }
    if |s| > 3 {
      assert TokenAt(ts, pos + 3).kind == CharKind(s[3]);
    }
  }

  /** ParsedAs for the stack opcodes followed by a number. */
  lemma ParsesNumberedStackOpcode(ts: TokenStream, pos: nat, pending: int, op: Op)
    requires op == Push || op == Copy || op == Slide
    requires OpcodeAt(ts, pos, op)
    ensures ParsedAs(ts, pos, pending, op)
  {
  }

  /** ParsedAs for the stack opcodes without an operand. */
  lemma ParsesPlainStackOpcode(ts: TokenStream, pos: nat, pending: int, op: Op)
    requires op == Duplicate || op == Swap || op == Discard
    requires OpcodeAt(ts, pos, op)
    ensures ParsedAs(ts, pos, pending, op)
  {
  }

  /** ParsedAs for addition, subtraction and multiplication. */
  lemma ParsesAddSubMulOpcode(ts: TokenStream, pos: nat, pending: int, op: Op)
    requires op == Plus || op == Minus || op == Times
    requires OpcodeAt(ts, pos, op)
    ensures ParsedAs(ts, pos, pending, op)
  {
  }

  /** ParsedAs for integer division and modulo. */
  lemma ParsesDivModOpcode(ts: TokenStream, pos: nat, pending: int, op: Op)
    requires op == IntDivide || op == Modulo
    requires OpcodeAt(ts, pos, op)
    ensures ParsedAs(ts, pos, pending, op)
  {
  }

  /** ParsedAs for the output opcodes. */
  lemma ParsesOutputOpcode(ts: TokenStream, pos: nat, pending: int, op: Op)
    requires op == OutChar || op == OutNum
    requires OpcodeAt(ts, pos, op)
    ensures ParsedAs(ts, pos, pending, op)
  {
  }

  /** ParsedAs for the input opcodes. */
  lemma ParsesInputOpcode(ts: TokenStream, pos: nat, pending: int, op: Op)
    requires op == ReadChar || op == ReadNum
    requires OpcodeAt(ts, pos, op)
    ensures ParsedAs(ts, pos, pending, op)
  {
  }

  /** ParsedAs for the end of the program. */
  lemma ParsesEndOpcode(ts: TokenStream, pos: nat, pending: int, op: Op)
    requires op == End
    requires OpcodeAt(ts, pos, op)
    ensures ParsedAs(ts, pos, pending, op)
  {
  }

  /** ParsedAs for the unconditional jump and the call. */
  lemma ParsesJumpOrCallOpcode(ts: TokenStream, pos: nat, pending: int, op: Op)
    requires op == Jump || op == CallSub
    requires OpcodeAt(ts, pos, op)
    ensures ParsedAs(ts, pos, pending, op)
  {
  }

  /** ParsedAs for the return and the conditional jumps. */
  lemma ParsesReturnOrBranchOpcode(ts: TokenStream, pos: nat, pending: int, op: Op)
    requires op == EndSub || op == JumpZero || op == JumpNegative
    requires OpcodeAt(ts, pos, op)
    ensures ParsedAs(ts, pos, pending, op)
  {
  }

  /** ParsedAs for the heap read. */
  lemma ParsesRetrieveOpcode(ts: TokenStream, pos: nat, pending: int, op: Op)
    requires op == ReadHeap
    requires OpcodeAt(ts, pos, op)
    ensures ParsedAs(ts, pos, pending, op)
  {
  }

  /** ParsedAs for the heap write. */
  lemma ParsesStoreOpcode(ts: TokenStream, pos: nat, pending: int, op: Op)
    requires op == WriteHeap
    requires OpcodeAt(ts, pos, op)
    ensures ParsedAs(ts, pos, pending, op)
  {
  }

  /** The opcode table: the tokens of each command's opcode make `nextCommand`
      build that command, on the line of the opcode's last token, carrying the
      pending label (which is reset), with its number or target label read
      from what follows. */
  lemma ParsesOpcode(ts: TokenStream, pos: nat, pending: int, op: Op)
    requires SpellsAt(ts, pos, OpcodeText(op))
    ensures var k := |OpcodeText(op)|;
            var r := NextCommandAt(ts, pos, pending);
            && r.Ok? && r.value.cmd.Some? && r.value.pending == NoLabel
            && r.value.cmd.value.op == op
            && r.value.cmd.value.labelId == pending
            && r.value.cmd.value.line == TokenAt(ts, pos + k - 1).line
            && (op.HasOperand() ==>
                  r.value.cmd.value.operand == NumberAt(ts, pos + k).0
                  && r.value.pos == NumberAt(ts, pos + k).1)
            && (op.IsFlow() ==>
                  r.value.cmd.value.targetLabel == LabelAt(ts, pos + k).0
                  && r.value.cmd.value.targetPc == -1
                  && r.value.pos == LabelAt(ts, pos + k).1)
            && (!op.HasOperand() && !op.IsFlow() ==>
                  r.value.cmd.value == Plain(op, TokenAt(ts, pos + k - 1).line, pending)
                  && r.value.pos == pos + k)
  {
    SpellsOpcode(ts, pos, op);
    if op == Push || op == Copy || op == Slide {
      ParsesNumberedStackOpcode(ts, pos, pending, op);
    } else if op == Duplicate || op == Swap || op == Discard {
      ParsesPlainStackOpcode(ts, pos, pending, op);
    } else if op == Plus || op == Minus || op == Times {
      ParsesAddSubMulOpcode(ts, pos, pending, op);
    } else if op == IntDivide || op == Modulo {
      ParsesDivModOpcode(ts, pos, pending, op);
    } else if op == OutChar || op == OutNum {
      ParsesOutputOpcode(ts, pos, pending, op);
    } else if op == ReadChar || op == ReadNum {
      ParsesInputOpcode(ts, pos, pending, op);
    } else if op == ReadHeap {
      ParsesRetrieveOpcode(ts, pos, pending, op);
    } else if op == WriteHeap {
      ParsesStoreOpcode(ts, pos, pending, op);
    } else if op == End {
      ParsesEndOpcode(ts, pos, pending, op);
    } else if op == Jump || op == CallSub {
      ParsesJumpOrCallOpcode(ts, pos, pending, op);
    } else {
      ParsesReturnOrBranchOpcode(ts, pos, pending, op);
    }
  }

  /** Conversely, every command `nextCommand` returns comes from a label mark
      or from its own opcode: any other prefix raises. */
  lemma OnlyOpcodesParse(ts: TokenStream, pos: nat, pending: int)
    requires pos <= |ts.toks|
    requires NextCommandAt(ts, pos, pending).Ok?
    requires NextCommandAt(ts, pos, pending).value.cmd.Some?
    ensures SpellsAt(ts, pos, MarkText)
            || SpellsAt(ts, pos, OpcodeText(NextCommandAt(ts, pos, pending).value.cmd.value.op))
  {
    var k := TokenAt(ts, pos).kind;
    if k == Space {
      OnlyOpcodesParseAfterSpace(ts, pos, pending);
    } else if k == Tab {
      OnlyOpcodesParseAfterTab(ts, pos, pending);
    } else {
      OnlyOpcodesParseAfterLinefeed(ts, pos, pending);
    }
  }

  /** OnlyOpcodesParse when the first token is a space. */
  lemma OnlyOpcodesParseAfterSpace(ts: TokenStream, pos: nat, pending: int)
    requires pos <= |ts.toks| && TokenAt(ts, pos).kind == Space
    requires NextCommandAt(ts, pos, pending).Ok?
    requires NextCommandAt(ts, pos, pending).value.cmd.Some?
    ensures SpellsAt(ts, pos, MarkText)
            || SpellsAt(ts, pos, OpcodeText(NextCommandAt(ts, pos, pending).value.cmd.value.op))
  {
    assert Next(ts, pos) == pos + 1;
    var t1 := TokenAt(ts, pos + 1);
    if t1.kind != Eof {
      assert Next(ts, pos + 1) == pos + 2;
      var t2 := TokenAt(ts, pos + 2);
      if t2.kind != Eof {
        assert Next(ts, pos + 2) == pos + 3;
      }
    }
  }

  /** OnlyOpcodesParse when the first token is a tab. */
  lemma OnlyOpcodesParseAfterTab(ts: TokenStream, pos: nat, pending: int)
    requires pos <= |ts.toks| && TokenAt(ts, pos).kind == Tab
    requires NextCommandAt(ts, pos, pending).Ok?
    requires NextCommandAt(ts, pos, pending).value.cmd.Some?
    ensures SpellsAt(ts, pos, MarkText)
            || SpellsAt(ts, pos, OpcodeText(NextCommandAt(ts, pos, pending).value.cmd.value.op))
  {
    assert Next(ts, pos) == pos + 1;
    var t1 := TokenAt(ts, pos + 1);
    if t1.kind != Eof {
      assert Next(ts, pos + 1) == pos + 2;
      var t2 := TokenAt(ts, pos + 2);
      if t2.kind != Eof {
        assert Next(ts, pos + 2) == pos + 3;
      }
    }
  }

  /** OnlyOpcodesParse when the first token is a linefeed. */
  lemma OnlyOpcodesParseAfterLinefeed(ts: TokenStream, pos: nat, pending: int)
    requires pos <= |ts.toks| && TokenAt(ts, pos).kind == Linefeed
    requires NextCommandAt(ts, pos, pending).Ok?
    requires NextCommandAt(ts, pos, pending).value.cmd.Some?
    ensures SpellsAt(ts, pos, MarkText)
            || SpellsAt(ts, pos, OpcodeText(NextCommandAt(ts, pos, pending).value.cmd.value.op))
  {
    assert Next(ts, pos) == pos + 1;
    var t1 := TokenAt(ts, pos + 1);
    if t1.kind != Eof {
      assert Next(ts, pos + 1) == pos + 2;
      var t2 := TokenAt(ts, pos + 2);
      if t2.kind != Eof {
        assert Next(ts, pos + 2) == pos + 3;
      }
    }
  }

  /** Every command `allCommands` returns has a label of -1 or a label read by
      `parseLabel`, so never below -1, and flow commands have an unresolved
      target PC and a target label of at least 0; these are the commands the
      minifier handles. */
  predicate Minifiable(c: Command)
  {
    && (c.labelId == NoLabel || c.labelId >= 0)
    && WellFormed(c)
    && (c.op.IsFlow() ==> c.targetLabel >= 0 && c.targetPc == -1)
  }

  lemma {:induction false} ParsedCommandsMinifiable(ts: TokenStream, pos: nat, pending: int)
    requires pos <= |ts.toks| && (pending == NoLabel || pending >= 0)
    requires AllCommandsFrom(ts, pos, pending).Ok?
    ensures forall i :: 0 <= i < |AllCommandsFrom(ts, pos, pending).value| ==>
              Minifiable(AllCommandsFrom(ts, pos, pending).value[i])
    decreases |ts.toks| - pos
  {
    var p := NextCommandAt(ts, pos, pending).value;
    if p.cmd.Some? {
      NextCommandMinifiable(ts, pos, pending);
      ParsedCommandsMinifiable(ts, p.pos, p.pending);
    }
  }

  lemma {:induction false} NextCommandMinifiable(ts: TokenStream, pos: nat, pending: int)
    requires pos <= |ts.toks| && (pending == NoLabel || pending >= 0)
    requires NextCommandAt(ts, pos, pending).Ok? && NextCommandAt(ts, pos, pending).value.cmd.Some?
    ensures Minifiable(NextCommandAt(ts, pos, pending).value.cmd.value)
    decreases |ts.toks| - pos, 1
  {
    if TokenAt(ts, pos).kind == Linefeed {
      FlowControlMinifiable(ts, pos + 1, pending);
    }
  }

  lemma {:induction false} FlowControlMinifiable(ts: TokenStream, pos: nat, pending: int)
    requires pos <= |ts.toks| && (pending == NoLabel || pending >= 0)
    requires FlowControlAt(ts, pos, pending).Ok? && FlowControlAt(ts, pos, pending).value.cmd.Some?
    ensures Minifiable(FlowControlAt(ts, pos, pending).value.cmd.value)
    decreases |ts.toks| - pos, 0
  {
    var p2 := Next(ts, Next(ts, pos));
    LabelIsNatural(ts, p2);
    if TokenAt(ts, pos).kind == Space && TokenAt(ts, Next(ts, pos)).kind == Space {
      var (mark, p3) := LabelAt(ts, p2);
      NextCommandMinifiable(ts, p3, mark);
    }
  }

  // ---------------------------------------------------------------------
  // The parser object

  /** Lifts a method's return value and final state to a Result<Parsed>. */
  function Lift(r: Result<Option<Command>>, pos: nat, pending: int): Result<Parsed>
  {
    match r
    case Err(e) => Err(e)
    case Ok(c) => Ok(Parsed(c, pos, pending))
  }

  /** `Parser`: a token reader with a pending label. */
  class Parser {
    const ts: TokenStream
    var pos: nat
    var pendingLabel: int

    ghost predicate Valid()
      reads this
    {
      pos <= |ts.toks|
    }

    /** `Parser(text, detect_readable)`: no label pending. */
    constructor(tokens: TokenStream)
      ensures Valid() && ts == tokens && pos == 0 && pendingLabel == NoLabel
    {
      ts := tokens;
      pos := 0;
      pendingLabel := NoLabel;
    }

    /** `nextToken()`. */
    method NextToken() returns (t: Token)
      requires Valid()
      modifies this
      ensures Valid() && pendingLabel == old(pendingLabel)
      ensures t == TokenAt(ts, old(pos)) && pos == Next(ts, old(pos))
    {
      t := TokenAt(ts, pos);
      pos := Next(ts, pos);
    }

    /** `get_label()`: hand out the pending label and reset it. */
    method GetLabel() returns (l: int)
      modifies this
      ensures l == old(pendingLabel) && pendingLabel == NoLabel && pos == old(pos)
    {
      l := pendingLabel;
      pendingLabel := NoLabel;
    }

    /** The shift-accumulate loop of `parseNumber` and `parseLabel`, from the
        first token after the sign. */
    method ReadBits() returns (out: int)
      requires Valid()
      modifies this
      ensures Valid() && pendingLabel == old(pendingLabel)
      ensures (out, pos) == ParseBits(ts, old(pos), 0)
    {
      ghost var start := pos;
      ghost var at := pos;
      var t := NextToken();
      out := 0;
      while t.kind == Space || t.kind == Tab
        invariant Valid() && pendingLabel == old(pendingLabel)
        invariant at <= |ts.toks| && t == TokenAt(ts, at) && pos == Next(ts, at)
        invariant ParseBits(ts, start, 0) == ParseBits(ts, at, out)
        decreases |ts.toks| - at
      {
        if t.kind == Space {
          out := 2 * out;
        } else {
          out := 2 * out + 1;
        }
        at := pos;
        t := NextToken();
      }
    }

    /** `parseNumber()`. */
    method ParseNumber() returns (n: int)
      requires Valid()
      modifies this
      ensures Valid() && pendingLabel == old(pendingLabel)
      ensures (n, pos) == NumberAt(ts, old(pos))
    {
      var t := NextToken();
      var sign;
      if t.kind == Space {
        sign := 1;
      } else if t.kind == Tab {
        sign := -1;
      } else {
        return -1;
      }
      var out := ReadBits();
      n := out * sign;
    }

    /** `parseLabel()`. */
    method ParseLabel() returns (n: int)
      requires Valid()
      modifies this
      ensures Valid() && pendingLabel == old(pendingLabel)
      ensures (n, pos) == LabelAt(ts, old(pos))
    {
      n := ReadBits();
    }

    /** `parseStackManip()`. */
    method ParseStackManip() returns (c: Option<Command>)
      requires Valid()
      modifies this
      ensures Valid()
      ensures Parsed(c, pos, pendingLabel) == StackManipAt(ts, old(pos), old(pendingLabel))
    {
      var t := NextToken();
      if t.kind == Space {
        var n := ParseNumber();
        var l := GetLabel();
        return Some(WithOperand(Push, t.line, n, l));
      } else if t.kind == Linefeed {
        var t2 := NextToken();
        if t2.kind == Space {
          var l := GetLabel();
          c := Some(Plain(Duplicate, t2.line, l));
        } else if t2.kind == Tab {
          var l := GetLabel();
          c := Some(Plain(Swap, t2.line, l));
        } else if t2.kind == Linefeed {
          var l := GetLabel();
          c := Some(Plain(Discard, t2.line, l));
        } else {
          c := None;
        }
      } else if t.kind == Tab {
        var t2 := NextToken();
        if t2.kind == Space {
          var n := ParseNumber();
          var l := GetLabel();
          c := Some(WithOperand(Copy, t2.line, n, l));
        } else if t2.kind == Linefeed {
          var n := ParseNumber();
          var l := GetLabel();
          c := Some(WithOperand(Slide, t2.line, n, l));
        } else {
          c := None;
        }
      } else {
        c := None;
      }
    }

    /** `parseIO()`. */
    method ParseIO() returns (c: Option<Command>)
      requires Valid()
      modifies this
      ensures Valid()
      ensures Parsed(c, pos, pendingLabel) == IOAt(ts, old(pos), old(pendingLabel))
    {
      var t := NextToken();
      if t.kind != Space && t.kind != Tab {
        return None;
      }
      var t2 := NextToken();
      var op;
      if t.kind == Space && t2.kind == Space {
        op := OutChar;
      } else if t.kind == Space && t2.kind == Tab {
        op := OutNum;
      } else if t.kind == Tab && t2.kind == Space {
        op := ReadChar;
      } else if t.kind == Tab && t2.kind == Tab {
        op := ReadNum;
      } else {
        return None;
      }
      var l := GetLabel();
      c := Some(Plain(op, t2.line, l));
    }

    /** `parseArith()`. */
    method ParseArith() returns (c: Option<Command>)
      requires Valid()
      modifies this
      ensures Valid()
      ensures Parsed(c, pos, pendingLabel) == ArithAt(ts, old(pos), old(pendingLabel))
    {
      var t := NextToken();
      if t.kind != Space && t.kind != Tab {
        return None;
      }
      var t2 := NextToken();
      var op;
      if t.kind == Space && t2.kind == Space {
        op := Plus;
      } else if t.kind == Space && t2.kind == Tab {
        op := Minus;
      } else if t.kind == Space && t2.kind == Linefeed {
        op := Times;
      } else if t.kind == Tab && t2.kind == Space {
        op := IntDivide;
      } else if t.kind == Tab && t2.kind == Tab {
        op := Modulo;
      } else {
        return None;
      }
      var l := GetLabel();
      c := Some(Plain(op, t2.line, l));
    }

    /** `parseHeap()`. */
    method ParseHeap() returns (c: Option<Command>)
      requires Valid()
      modifies this
      ensures Valid()
      ensures Parsed(c, pos, pendingLabel) == HeapAt(ts, old(pos), old(pendingLabel))
    {
      var t := NextToken();
      if t.kind == Space {
        var l := GetLabel();
        c := Some(Plain(WriteHeap, t.line, l));
      } else if t.kind == Tab {
        var l := GetLabel();
        c := Some(Plain(ReadHeap, t.line, l));
      } else {
        c := None;
      }
    }

    /** `parseFlowControl()`. */
    method ParseFlowControl() returns (r: Result<Option<Command>>)
      requires Valid()
      modifies this
      ensures Valid() && old(pos) <= pos
      ensures Lift(r, pos, pendingLabel) == FlowControlAt(ts, old(pos), old(pendingLabel))
      decreases |ts.toks| - pos, 0
    {
      var t := NextToken();
      if t.kind == Eof {
        return Ok(None);
      }
      var t2 := NextToken();
      if t.kind == Linefeed {
        if t2.kind == Linefeed {
          var l := GetLabel();
          return Ok(Some(Plain(End, t2.line, l)));
        }
        return Ok(None);
      } else if t.kind == Space {
        if t2.kind == Space {
          pendingLabel := ParseLabel();
          r := NextCommand();
          return;
        } else if t2.kind == Linefeed || t2.kind == Tab {
          var target := ParseLabel();
          var l := GetLabel();
          return Ok(Some(Flow(if t2.kind == Linefeed then Jump else CallSub, t2.line, l, target)));
        }
        return Ok(None);
      } else {
        if t2.kind == Linefeed {
          var l := GetLabel();
          return Ok(Some(Plain(EndSub, t2.line, l)));
        } else if t2.kind == Space || t2.kind == Tab {
          var l := GetLabel();
          var target := ParseLabel();
          return Ok(Some(Flow(if t2.kind == Space then JumpZero else JumpNegative, t2.line, l, target)));
        }
        return Ok(None);
      }
    }

    /** `nextCommand()`. */
    method NextCommand() returns (r: Result<Option<Command>>)
      requires Valid()
      modifies this
      ensures Valid() && old(pos) <= pos
      ensures Lift(r, pos, pendingLabel) == NextCommandAt(ts, old(pos), old(pendingLabel))
      decreases |ts.toks| - pos, 1
    {
      var t := NextToken();
      if t.kind == Eof {
        return Ok(None);
      }
      if t.kind == Space {
        var c := ParseStackManip();
        r := Ok(c);
      } else if t.kind == Linefeed {
        r := ParseFlowControl();
      } else {
        var t2 := NextToken();
        var c := None;
        if t2.kind == Space {
          c := ParseArith();
        } else if t2.kind == Linefeed {
          c := ParseIO();
        } else if t2.kind == Tab {
          c := ParseHeap();
        }
        r := Ok(c);
      }
      if r.Ok? && r.value.None? {
        r := Err(ParseError(pos));
      }
    }

    /** `allCommands()`: call `nextCommand` until it returns None. */
    method AllCommands() returns (r: Result<seq<Command>>)
      requires Valid()
      modifies this
      ensures r == AllCommandsFrom(ts, old(pos), old(pendingLabel))
    {
      var out: seq<Command> := [];
      var c := NextCommand();
      if c.Ok? && c.value.Some? {
        var rest := AllCommandsFrom(ts, pos, pendingLabel);
        if rest.Ok? {
          assert [] + [c.value.value] + rest.value == [c.value.value] + rest.value;
        }
      }
      while c.Ok? && c.value.Some?
        invariant Valid()
        invariant AllCommandsFrom(ts, old(pos), old(pendingLabel)) == Continue(out, c, pos, pendingLabel)
        decreases |ts.toks| - pos + (if c.Ok? && c.value.Some? then 1 else 0)
      {
        out := out + [c.value.value];
        c := NextCommand();
        match c
        case Ok(Some(y)) =>
          var rest := AllCommandsFrom(ts, pos, pendingLabel);
          if rest.Ok? {
            assert out + ([y] + rest.value) == out + [y] + rest.value;
          }
        case Ok(None) =>
          assert out + [] == out;
        case Err(_) =>
      }
      r := if c.Err? then Err(c.error) else Ok(out);
    }

    /** What `allCommands` returns, given the commands collected so far and
        the latest return of `nextCommand`. */
    ghost function Continue(out: seq<Command>, c: Result<Option<Command>>, at: nat, pending: int): Result<seq<Command>>
      requires at <= |ts.toks|
    {
      match c
      case Err(e) => Err(e)
      case Ok(None) => Ok(out)
      case Ok(Some(x)) =>
        match AllCommandsFrom(ts, at, pending)
        case Err(e) => Err(e)
        case Ok(rest) => Ok(out + [x] + rest)
    }
  }
}
