/** The instruction set of whitespace/Commands.py as data: one record per
    command, its equality, and its minified (canonical strict-syntax) text.
    What each command does to a runtime is in module Machine.

    Copy and Slide are imported by the parser but never defined in
    Commands.py; they are kept here with the parser's opcodes, and their
    behaviour (module Machine) follows whitespace/test/test_commands.py. */
module Commands {
  import opened Base
  import opened Codec

  /** One constructor per command class. */
  datatype Op =
    | Push | Duplicate | Swap | Discard | Copy | Slide
    | Plus | Minus | Times | IntDivide | Modulo
    | OutChar | OutNum | ReadChar | ReadNum
    | End | CallSub | EndSub | Jump | JumpZero | JumpNegative
    | ReadHeap | WriteHeap
  {
    /** The commands that carry a number (`num` for Push). */
    predicate HasOperand() { this == Push || this == Copy || this == Slide }

    /** The commands the flow resolver backpatches. */
    predicate IsFlow() { this == CallSub || this == Jump || this == JumpZero || this == JumpNegative }
  }

  /** The label value meaning "no label". */
  const NoLabel: int := -1

  /** A command: its class, source line, optional label (NoLabel when absent),
      number operand, and for flow commands the target label and the target
      program counter (-1 until resolved). */
  datatype Command = Command(op: Op, line: int, labelId: int, operand: int, targetLabel: int, targetPc: int)

  /** The constructor of a command without operand or target. */
  function Plain(op: Op, line: int, labelId: int): Command
  {
    Command(op, line, labelId, 0, -1, -1)
  }

  /** `Push(line, num, label)` and the test-derived Copy and Slide. */
  function WithOperand(op: Op, line: int, n: int, labelId: int): Command
  {
    Command(op, line, labelId, n, -1, -1)
  }

  /** The flow constructors: `target_pc` starts at -1 (whitespace/Commands.py:425-427). */
  function Flow(op: Op, line: int, labelId: int, target: int): Command
  {
    Command(op, line, labelId, 0, target, -1)
  }

  /** The fields a command's class does not have hold their defaults. */
  predicate WellFormed(c: Command)
  {
    && (!c.op.HasOperand() ==> c.operand == 0)
    && (!c.op.IsFlow() ==> c.targetLabel == -1 && c.targetPc == -1)
  }

  /** `__eq__` with `ignore_line_number` False: same class, line and label, and
      the same number or the same targets where the class has them. */
  predicate Same(a: Command, b: Command)
  {
    && a.op == b.op && a.line == b.line && a.labelId == b.labelId
    && (a.op.HasOperand() ==> a.operand == b.operand)
    && (a.op.IsFlow() ==> a.targetLabel == b.targetLabel && a.targetPc == b.targetPc)
  }

  /** `__eq__` with `ignore_line_number` True. */
  predicate SameIgnoringLine(a: Command, b: Command)
  {
    && a.op == b.op && a.labelId == b.labelId
    && (a.op.HasOperand() ==> a.operand == b.operand)
    && (a.op.IsFlow() ==> a.targetLabel == b.targetLabel && a.targetPc == b.targetPc)
  }

  /** On well-formed commands the source's equality is equality of records,
      and ignoring lines is comparing after copying one line over. */
  lemma SameIsEquality(a: Command, b: Command)
    requires WellFormed(a) && WellFormed(b)
    ensures Same(a, b) <==> a == b
    ensures SameIgnoringLine(a, b) <==> a == b.(line := a.line)
  {
  }

  /** The tokens that introduce each command. */
  function OpcodeText(op: Op): string
  {
    match op
    case Push => "  "
    case Duplicate => " \n "
    case Swap => " \n\t"
    case Discard => " \n\n"
    case Copy => " \t "
    case Slide => " \t\n"
    case Plus => "\t   "
    case Minus => "\t  \t"
    case Times => "\t  \n"
    case IntDivide => "\t \t "
    case Modulo => "\t \t\t"
    case OutChar => "\t\n  "
    case OutNum => "\t\n \t"
    case ReadChar => "\t\n\t "
    case ReadNum => "\t\n\t\t"
    case End => "\n\n\n"
    case CallSub => "\n \t"
    case EndSub => "\n\t\n"
    case Jump => "\n \n"
    case JumpZero => "\n\t "
    case JumpNegative => "\n\t\t"
    case ReadHeap => "\t\t\t"
    case WriteHeap => "\t\t "
  }

  /** The tokens of a label mark, "\n  " followed by the label. */
  const MarkText: string := "\n  "

  /** No opcode begins with the label mark, so a label mark is never
      mistaken for a command's own tokens. */
  lemma OpcodeIsNotMark(op: Op, rest: string)
    requires op == Push ==> |rest| >= 1
    ensures |OpcodeText(op) + rest| >= 3
    ensures (OpcodeText(op) + rest)[..3] != MarkText
  {
    var t := OpcodeText(op) + rest;
    assert t[0] != '\n' || t[1] != ' ' || t[2] != ' ';
  }

  /** The base `minified`: the label mark when the command has a label. */
  function LabelPrefix(labelId: int): string
  {
    if labelId != NoLabel then MarkText + EncodeLabel(labelId) else ""
  }

  /** Each class's `minified`: the label prefix, the opcode, then the encoded
      number or target label. */
  function Minified(c: Command): string
  {
    LabelPrefix(c.labelId) + (OpcodeText(c.op) + Operand(c))
  }

  /** What follows a command's opcode: its number or its target label. */
  function Operand(c: Command): string
  {
    if c.op.HasOperand() then EncodeNumber(c.operand)
    else if c.op.IsFlow() then EncodeLabel(c.targetLabel)
    else ""
  }

  /** A minified command opens with the label mark exactly when it has a label. */
  lemma MinifiedOpensWithMark(c: Command)
    ensures |Minified(c)| >= 3
    ensures Minified(c)[..3] == MarkText <==> c.labelId != NoLabel
  {
    var body := OpcodeText(c.op) + Operand(c);
    OpcodeIsNotMark(c.op, Operand(c));
    if c.labelId == NoLabel {
      assert Minified(c) == body;
    } else {
      var prefix := LabelPrefix(c.labelId);
      assert prefix[..3] == MarkText;
      assert Minified(c)[..3] == prefix[..3];
    }
  }

  /** A program's minified text: its commands' texts in order. */
  function Minify(prog: seq<Command>): string
  {
    if prog == [] then "" else Minify(prog[..|prog| - 1]) + Minified(prog[|prog| - 1])
  }
}
