/** What each command's `execute` does to a `Runtime` (whitespace/Commands.py,
    whitespace/Runtime.py).

    Step is the specification: the runtime's contents before and after one
    `execute`, and what `execute` returned or raised.  When `execute` raises,
    the state is the one Python leaves behind: a StackError is raised before
    anything is popped, while a division by zero, a `chr` out of range or a
    heap IndexError come after the operands were popped.  Class Runtime holds
    the objects the source mutates in place, and Runtime.Execute is proved to
    perform Step.

    The input and output files are modelled as the text still to be read
    and the sequence of values printed. */
module Machine {
  import opened Base
  import opened Commands
  import opened Memory
  import opened Numerals

  /** One `print` to the output file: `chr(code)` or a number. */
  datatype OutputItem = Char(code: int) | Number(value: int)

  /** The largest argument `chr` accepts. */
  const MaxCodePoint: int := 0x10FFFF

  /** The contents of a Runtime: data stack and call stack (top last), heap
      array, PC, the input not yet read, and everything printed. */
  datatype MachineState = MachineState(
    stack: seq<int>, callstack: seq<int>, heap: seq<int>, pc: int,
    input: string, output: seq<OutputItem>)

  /** The state after `execute`, and its return value or exception. */
  datatype StepResult = StepResult(state: MachineState, ret: Result<int>)

  /** The runtime with every argument defaulted: empty stacks, a new heap, PC 0. */
  function InitialState(input: string): MachineState
  {
    MachineState([], [], FreshCells, 0, input, [])
  }

  /** Raise e, leaving state s. */
  function Raise(s: MachineState, e: Error): StepResult
  {
    StepResult(s, Err(e))
  }

  /** Return `runtime.PC + 1`, leaving state s. */
  function Advance(s: MachineState): StepResult
  {
    StepResult(s, Ok(s.pc + 1))
  }

  /** `first OP second` for the arithmetic commands, with Python's floor `//` and `%`. */
  function Arithmetic(op: Op, first: int, second: int): int
    requires (op == IntDivide || op == Modulo) ==> second != 0
  {
    match op
    case Plus => first + second
    case Minus => first - second
    case Times => first * second
    case IntDivide => FloorDiv(first, second)
    case Modulo => FloorMod(first, second)
    case _ => 0
  }

  /** The arithmetic commands: pop `second` (the top) and then `first`, push
      `first OP second`.  A zero divisor raises after both pops. */
  function ArithStep(op: Op, s: MachineState): (r: StepResult)
    ensures r.state.pc == s.pc && (r.ret.Ok? ==> r.ret.value == s.pc + 1)
  {
    var n := |s.stack|;
    if n < 2 then Raise(s, StackError)
    else
      var second := s.stack[n - 1];
      var first := s.stack[n - 2];
      var popped := s.(stack := s.stack[..n - 2]);
      if (op == IntDivide || op == Modulo) && second == 0 then Raise(popped, ZeroDivisionError)
      else Advance(popped.(stack := popped.stack + [Arithmetic(op, first, second)]))
  }

  /** The conditional jumps: look at the top without popping it. */
  function BranchStep(c: Command, s: MachineState, taken: int -> bool): StepResult
  {
    var n := |s.stack|;
    if n == 0 then Raise(s, StackError)
    else StepResult(s, Ok(if taken(s.stack[n - 1]) then c.targetPc else s.pc + 1))
  }

  /** ReadNum: `int(file_in.readline())`, pushed. */
  function ReadNumStep(s: MachineState): StepResult
  {
    var line := ReadLine(s.input).0;
    var consumed := s.(input := ReadLine(s.input).1);
    match ParseInt(line)
    case None => Raise(consumed, ValueError)
    case Some(v) => Advance(consumed.(stack := s.stack + [v]))
  }

  /** Stack manipulation (whitespace/Commands.py:77-170; Copy and Slide
      follow whitespace/test/test_commands.py:323-380). */
  function StackStep(c: Command, s: MachineState): (r: StepResult)
    ensures r.state.pc == s.pc && (r.ret.Ok? ==> r.ret.value == s.pc + 1)
  {
    var n := |s.stack|;
    match c.op
    case Push => Advance(s.(stack := s.stack + [c.operand]))
    case Duplicate =>
      if n == 0 then Raise(s, StackError) else Advance(s.(stack := s.stack + [s.stack[n - 1]]))
    case Swap =>
      if n < 2 then Raise(s, StackError)
      else Advance(s.(stack := s.stack[..n - 2] + [s.stack[n - 1], s.stack[n - 2]]))
    case Discard =>
      if n == 0 then Raise(s, StackError) else Advance(s.(stack := s.stack[..n - 1]))
    case Copy =>
      if 0 <= c.operand < n then Advance(s.(stack := s.stack + [s.stack[n - 1 - c.operand]]))
      else Raise(s, StackError)
    case Slide =>
      if 0 <= c.operand < n then Advance(s.(stack := s.stack[..n - 1 - c.operand] + [s.stack[n - 1]]))
      else Raise(s, StackError)
    case _ => Raise(s, StackError)
  }

  /** Input and output (whitespace/Commands.py:304-398). */
  function IOStep(op: Op, s: MachineState): (r: StepResult)
    ensures r.state.pc == s.pc && (r.ret.Ok? ==> r.ret.value == s.pc + 1)
  {
    var n := |s.stack|;
    match op
    case OutChar =>
      if n == 0 then Raise(s, StackError)
      else
        var popped := s.(stack := s.stack[..n - 1]);
        var v := s.stack[n - 1];
        if 0 <= v <= MaxCodePoint then Advance(popped.(output := s.output + [Char(v)]))
        else Raise(popped, ValueError)
    case OutNum =>
      if n == 0 then Raise(s, StackError)
      else Advance(s.(stack := s.stack[..n - 1], output := s.output + [Number(s.stack[n - 1])]))
    case ReadChar =>
      // `int(file_in.read()[0])`: read() takes all the input
      var consumed := s.(input := []);
      if s.input == [] then Raise(consumed, IndexError)
      else
        (match DigitValue(s.input[0])
         case None => Raise(consumed, ValueError)
         case Some(d) => Advance(consumed.(stack := s.stack + [d])))
    case _ => ReadNumStep(s)
  }

  /** Control flow (whitespace/Commands.py:404-541). */
  function FlowStep(c: Command, s: MachineState): (r: StepResult)
    ensures r.state == s.(callstack := r.state.callstack)
    ensures r.ret.Err? ==> r.state == s
  {
    match c.op
    case End => StepResult(s, Ok(-1))
    case CallSub =>
      if c.targetPc != -1 then StepResult(s.(callstack := s.callstack + [s.pc]), Ok(c.targetPc))
      else Raise(s, CannotFindJumpTarget)
    case EndSub =>
      var m := |s.callstack|;
      if m == 0 then Raise(s, StackError)
      else StepResult(s.(callstack := s.callstack[..m - 1]), Ok(s.callstack[m - 1]))
    case Jump => StepResult(s, Ok(c.targetPc))
    case JumpZero => BranchStep(c, s, v => v == 0)
    case _ => BranchStep(c, s, v => v < 0)
  }

  /** Heap access (whitespace/Commands.py:548-594). */
  function HeapStep(op: Op, s: MachineState): (r: StepResult)
    requires |s.heap| > 0
    ensures r.state.pc == s.pc && (r.ret.Ok? ==> r.ret.value == s.pc + 1)
  {
    var n := |s.stack|;
    if op == ReadHeap then
      if n == 0 then Raise(s, StackError)
      else
        var address := s.stack[n - 1];
        var popped := s.(stack := s.stack[..n - 1], heap := Grown(s.heap, address));
        (match HeapRead(s.heap, address)
         case Err(e) => Raise(popped, e)
         case Ok(v) => Advance(popped.(stack := popped.stack + [v])))
    else
      if n < 2 then Raise(s, StackError)
      else
        var value := s.stack[n - 1];
        var address := s.stack[n - 2];
        var popped := s.(stack := s.stack[..n - 2]);
        (match HeapWrite(s.heap, address, value)
         case Err(e) => Raise(popped.(heap := Grown(s.heap, address)), e)
         case Ok(h) => Advance(popped.(heap := h)))
  }

  /** `execute` of one command: what it does to the machine and the index
      it returns, by the command's group. */
  function Step(c: Command, s: MachineState): (r: StepResult)
    requires |s.heap| > 0
    ensures |r.state.heap| > 0 && r.state.pc == s.pc
  {
    match c.op
    case Push | Duplicate | Swap | Discard | Copy | Slide => StackStep(c, s)
    case Plus | Minus | Times | IntDivide | Modulo => ArithStep(c.op, s)
    case OutChar | OutNum | ReadChar | ReadNum => IOStep(c.op, s)
    case End | CallSub | EndSub | Jump | JumpZero | JumpNegative => FlowStep(c, s)
    case ReadHeap | WriteHeap => HeapStep(c.op, s)
  }

  // ---------------------------------------------------------------------
  // Properties of Step

  /** The stack checks of the source, as a table: the commands that need one
      element, two elements, a call-stack entry, or (Copy and Slide) more
      elements than their operand. */
  predicate Underflows(c: Command, s: MachineState)
  {
    match c.op
    case Duplicate | Discard | OutChar | OutNum | JumpZero | JumpNegative | ReadHeap => |s.stack| < 1
    case Swap | Plus | Minus | Times | IntDivide | Modulo | WriteHeap => |s.stack| < 2
    case Copy | Slide => !(0 <= c.operand < |s.stack|)
    case EndSub => |s.callstack| == 0
    case _ => false
  }

  /** `execute` raises StackError exactly when the command's stack check fails,
      and then it has changed nothing. */
  lemma StackErrorIffUnderflow(c: Command, s: MachineState)
    requires |s.heap| > 0
    ensures Step(c, s).ret == Err(StackError) <==> Underflows(c, s)
    ensures Underflows(c, s) ==> Step(c, s).state == s
  {
    match c.op
    case ReadHeap =>
      if |s.stack| > 0 {
        var a := s.stack[|s.stack| - 1];
        GrowthNeverShrinks(s.heap, a);
      }
    case WriteHeap =>
      if |s.stack| > 1 {
        var a := s.stack[|s.stack| - 2];
        GrowthNeverShrinks(s.heap, a);
      }
    case _ =>
  }

  /** How a successful `execute` changes the depth of the data stack. */
  function StackEffect(c: Command): int
  {
    match c.op
    case Push | Duplicate | Copy | ReadChar | ReadNum => 1
    case Discard | Plus | Minus | Times | IntDivide | Modulo | OutChar | OutNum => -1
    case Slide => -c.operand
    case WriteHeap => -2
    case _ => 0
  }

  /** How a successful `execute` changes the depth of the call stack. */
  function CallEffect(c: Command): int
  {
    if c.op == CallSub then 1 else if c.op == EndSub then -1 else 0
  }

  predicate IsIO(op: Op) { op == OutChar || op == OutNum || op == ReadChar || op == ReadNum }

  predicate IsHeapOp(op: Op) { op == ReadHeap || op == WriteHeap }

  /** A successful `execute` moves each stack by its command's effect. */
  lemma StepEffect(c: Command, s: MachineState)
    requires |s.heap| > 0 && Step(c, s).ret.Ok?
    ensures |Step(c, s).state.stack| == |s.stack| + StackEffect(c)
    ensures |Step(c, s).state.callstack| == |s.callstack| + CallEffect(c)
  {
    match c.op {
      case Push =>
      case Duplicate =>
      case Swap =>
      case Discard =>
      case Copy =>
      case Slide =>
      case Plus =>
      case Minus =>
      case Times =>
      case IntDivide =>
      case Modulo =>
      case OutChar =>
      case OutNum =>
      case ReadChar =>
      case ReadNum =>
      case End =>
      case CallSub =>
      case EndSub =>
      case Jump =>
      case JumpZero =>
      case JumpNegative =>
      case ReadHeap =>
      case WriteHeap =>
    }
  }

  /** `execute` touches the heap only for heap commands, the files only for
      I/O commands and the call stack only for CallSub and EndSub, whether or
      not it raises. */
  lemma StepFrame(c: Command, s: MachineState)
    requires |s.heap| > 0
    ensures !IsHeapOp(c.op) ==> Step(c, s).state.heap == s.heap
    ensures !IsIO(c.op) ==> Step(c, s).state.input == s.input && Step(c, s).state.output == s.output
    ensures c.op != CallSub && c.op != EndSub ==> Step(c, s).state.callstack == s.callstack
  {
    match c.op {
      case Push =>
      case Duplicate =>
      case Swap =>
      case Discard =>
      case Copy =>
      case Slide =>
      case Plus =>
      case Minus =>
      case Times =>
      case IntDivide =>
      case Modulo =>
      case OutChar =>
      case OutNum =>
      case ReadChar =>
      case ReadNum =>
      case End =>
      case CallSub =>
      case EndSub =>
      case Jump =>
      case JumpZero =>
      case JumpNegative =>
      case ReadHeap =>
      case WriteHeap =>
    }
  }

  /** The arithmetic commands pop two and push `first OP second` with the
      first operand the deeper one (whitespace/Commands.py:178-298). */
  lemma ArithmeticOrder(op: Op, xs: seq<int>, first: int, second: int, s: MachineState)
    requires op in {Plus, Minus, Times, IntDivide, Modulo}
    requires |s.heap| > 0 && s.stack == xs + [first, second]
    requires (op == IntDivide || op == Modulo) ==> second != 0
    ensures Step(Plain(op, 0, NoLabel), s) == Advance(s.(stack := xs + [Arithmetic(op, first, second)]))
  {
    assert s.stack[..|s.stack| - 2] == xs;
  }

  /** Division and modulo round toward negative infinity: -7 // 2 is -4 and
      -7 % 2 is 1. */
  lemma FloorArithmetic()
    ensures Arithmetic(IntDivide, -7, 2) == -4 && Arithmetic(Modulo, -7, 2) == 1
    ensures Arithmetic(IntDivide, 7, -2) == -4 && Arithmetic(Modulo, 7, -2) == -1
  {
  }

  /** Swapping twice restores the stack. */
  lemma SwapTwice(s: MachineState)
    requires |s.heap| > 0 && |s.stack| >= 2
    ensures Step(Plain(Swap, 0, NoLabel), Step(Plain(Swap, 0, NoLabel), s).state).state == s
  {
    var n := |s.stack|;
    var t := s.stack[..n - 2] + [s.stack[n - 1], s.stack[n - 2]];
    assert t[..n - 2] == s.stack[..n - 2];
    assert t[..n - 2] + [t[n - 1], t[n - 2]] == s.stack;
  }

  /** A call followed by a return comes back to the calling PC with the call
      stack as it was. */
  lemma CallThenReturn(c: Command, s: MachineState)
    requires |s.heap| > 0 && c.op == CallSub && c.targetPc != -1
    ensures Step(c, s).ret == Ok(c.targetPc)
    ensures Step(Plain(EndSub, 0, NoLabel), Step(c, s).state) == StepResult(s, Ok(s.pc))
  {
    var t := Step(c, s).state;
    assert t.callstack[..|t.callstack| - 1] == s.callstack;
  }

  /** Storing a value at a non-negative address and then reading the address
      back pushes that value (Write_Heap pops the value, then the address). */
  lemma StoreThenRetrieve(s: MachineState, xs: seq<int>, address: nat, value: int)
    requires |s.heap| > 0 && s.stack == xs + [address, value]
    ensures Step(Plain(WriteHeap, 0, NoLabel), s).ret == Ok(s.pc + 1)
    ensures var t := Step(Plain(WriteHeap, 0, NoLabel), s).state;
            var u := t.(stack := t.stack + [address]);
            Step(Plain(ReadHeap, 0, NoLabel), u).state.stack == xs + [value]
  {
    WriteThenRead(s.heap, address, value, address);
    var h := HeapWrite(s.heap, address, value).value;
    var t := s.(stack := xs, heap := h);
    assert s.stack[..|s.stack| - 2] == xs;
    assert Step(Plain(WriteHeap, 0, NoLabel), s) == Advance(t);
    var u := t.(stack := xs + [address]);
    ReadIsCell(h, address);
    assert u.stack[..|u.stack| - 1] == xs;
  }

  /** ReadNum takes one line of input and pushes the number printed on it. */
  lemma ReadNumReadsLine(s: MachineState, n: int, rest: string)
    requires |s.heap| > 0 && s.input == IntText(n) + "\n" + rest
    ensures Step(Plain(ReadNum, 0, NoLabel), s) == Advance(s.(stack := s.stack + [n], input := rest))
  {
    ReadNumParsesLine(s, n, rest);
  }

  /** The same about `int(file_in.readline())` alone. */
  lemma ReadNumParsesLine(s: MachineState, n: int, rest: string)
    requires s.input == IntText(n) + "\n" + rest
    ensures ReadNumStep(s) == Advance(s.(stack := s.stack + [n], input := rest))
  {
    var line := IntText(n) + "\n";
    IntTextHasNoLinefeed(n);
    ReadLineOfLine(IntText(n), rest);
    assert ReadLine(s.input) == (line, rest);
    ParseIntText(n, "", "\n");
    assert "" + IntText(n) + "\n" == line;
  }

  lemma IntTextHasNoLinefeed(n: int)
    ensures forall i :: 0 <= i < |IntText(n)| ==> IntText(n)[i] != '\n'
  {
    var t := IntText(n);
    var mag := NatText(if n < 0 then -n else n);
    forall i | 0 <= i < |t|
      ensures t[i] != '\n'
    {
      if n < 0 {
        if i > 0 {
          assert t[i] == mag[i - 1];
        }
      } else {
        assert t[i] == mag[i];
      }
    }
  }

  lemma {:induction false} ReadLineOfLine(t: string, rest: string)
    requires forall i :: 0 <= i < |t| ==> t[i] != '\n'
    ensures ReadLine(t + "\n" + rest) == (t + "\n", rest)
    decreases |t|
  {
    if t == [] {
      assert t + "\n" + rest == "\n" + rest;
      assert ("\n" + rest)[1..] == rest;
    } else {
      assert (t + "\n" + rest)[1..] == t[1..] + "\n" + rest;
      ReadLineOfLine(t[1..], rest);
      assert [t[0]] + (t[1..] + "\n") == t + "\n";
    }
  }

  /** ReadChar pushes the value of the digit the input starts with, and
      consumes all the input. */
  lemma ReadCharTakesDigit(s: MachineState, d: nat)
    requires |s.heap| > 0 && d < 10 && s.input != [] && s.input[0] == DigitChar(d)
    ensures Step(Plain(ReadChar, 0, NoLabel), s) == Advance(s.(stack := s.stack + [d], input := []))
  {
  }

  // ---------------------------------------------------------------------
  // What each command does, for every state

  /** Push appends its operand. */
  lemma PushAppendsOperand(c: Command, s: MachineState)
    requires |s.heap| > 0 && c.op == Push
    ensures Step(c, s) == Advance(s.(stack := s.stack + [c.operand]))
  {
  }

  /** Duplicate pushes a copy of the top. */
  lemma DuplicateCopiesTop(c: Command, s: MachineState, xs: seq<int>, a: int)
    requires |s.heap| > 0 && c.op == Duplicate && s.stack == xs + [a]
    ensures Step(c, s) == Advance(s.(stack := xs + [a, a]))
  {
  }

  /** Swap exchanges the two top elements. */
  lemma SwapExchangesTop(c: Command, s: MachineState, xs: seq<int>, a: int, b: int)
    requires |s.heap| > 0 && c.op == Swap && s.stack == xs + [a, b]
    ensures Step(c, s) == Advance(s.(stack := xs + [b, a]))
  {
    assert s.stack[..|s.stack| - 2] == xs;
  }

  /** Discard drops the top. */
  lemma DiscardDropsTop(c: Command, s: MachineState, xs: seq<int>, a: int)
    requires |s.heap| > 0 && c.op == Discard && s.stack == xs + [a]
    ensures Step(c, s) == Advance(s.(stack := xs))
  {
    assert s.stack[..|s.stack| - 1] == xs;
  }

  /** Copy n pushes a copy of the element n places below the top. */
  lemma CopyPushesNth(c: Command, s: MachineState, xs: seq<int>, v: int, ys: seq<int>)
    requires |s.heap| > 0 && c.op == Copy && s.stack == xs + [v] + ys && |ys| == c.operand
    ensures Step(c, s) == Advance(s.(stack := s.stack + [v]))
  {
    assert s.stack[|s.stack| - 1 - c.operand] == v;
  }

  /** Slide n removes the n elements below the top and keeps the top. */
  lemma SlideKeepsTop(c: Command, s: MachineState, xs: seq<int>, ys: seq<int>, top: int)
    requires |s.heap| > 0 && c.op == Slide && s.stack == xs + ys + [top] && |ys| == c.operand
    ensures Step(c, s) == Advance(s.(stack := xs + [top]))
  {
    assert s.stack[..|s.stack| - 1 - c.operand] == xs;
  }

  /** Integer division and modulo by zero raise ZeroDivisionError after
      both operands were popped. */
  lemma ZeroDivisorRaises(c: Command, s: MachineState, xs: seq<int>, first: int)
    requires |s.heap| > 0 && (c.op == IntDivide || c.op == Modulo) && s.stack == xs + [first, 0]
    ensures Step(c, s) == Raise(s.(stack := xs), ZeroDivisionError)
  {
    assert s.stack[..|s.stack| - 2] == xs;
  }

  /** OutChar pops the top and prints `chr` of it; a value `chr` refuses
      raises ValueError after the pop. */
  lemma OutCharPrints(c: Command, s: MachineState, xs: seq<int>, v: int)
    requires |s.heap| > 0 && c.op == OutChar && s.stack == xs + [v]
    ensures 0 <= v <= MaxCodePoint ==> Step(c, s) == Advance(s.(stack := xs, output := s.output + [Char(v)]))
    ensures !(0 <= v <= MaxCodePoint) ==> Step(c, s) == Raise(s.(stack := xs), ValueError)
  {
    assert s.stack[..|s.stack| - 1] == xs;
  }

  /** OutNum pops the top and prints it as a number. */
  lemma OutNumPrints(c: Command, s: MachineState, xs: seq<int>, v: int)
    requires |s.heap| > 0 && c.op == OutNum && s.stack == xs + [v]
    ensures Step(c, s) == Advance(s.(stack := xs, output := s.output + [Number(v)]))
  {
    assert s.stack[..|s.stack| - 1] == xs;
  }

  /** ReadChar on an empty input raises IndexError; on an input that does
      not start with a digit it raises ValueError.  Either way the input is
      used up and nothing is pushed. */
  lemma ReadCharRejects(c: Command, s: MachineState)
    requires |s.heap| > 0 && c.op == ReadChar
    ensures s.input == [] ==> Step(c, s) == Raise(s, IndexError)
    ensures s.input != [] && !IsDigit(s.input[0]) ==> Step(c, s) == Raise(s.(input := []), ValueError)
  {
  }

  /** ReadNum on a line that is not a number raises ValueError, with the
      line consumed and nothing pushed. */
  lemma ReadNumRejects(c: Command, s: MachineState)
    requires |s.heap| > 0 && c.op == ReadNum && ParseInt(ReadLine(s.input).0).None?
    ensures Step(c, s) == Raise(s.(input := ReadLine(s.input).1), ValueError)
  {
  }

  /** End returns -1, the index that stops the run, and changes nothing. */
  lemma EndStops(c: Command, s: MachineState)
    requires |s.heap| > 0 && c.op == End
    ensures Step(c, s) == StepResult(s, Ok(-1))
  {
  }

  /** Jump returns its resolved target and changes nothing. */
  lemma JumpGoesToTarget(c: Command, s: MachineState)
    requires |s.heap| > 0 && c.op == Jump
    ensures Step(c, s) == StepResult(s, Ok(c.targetPc))
  {
  }

  /** The conditional jumps leave the stack as it is and return the target
      exactly when the top is zero (JumpZero) or negative (JumpNegative),
      and the next index otherwise. */
  lemma BranchTestsTop(c: Command, s: MachineState, xs: seq<int>, v: int)
    requires |s.heap| > 0 && (c.op == JumpZero || c.op == JumpNegative) && s.stack == xs + [v]
    ensures Step(c, s).state == s
    ensures Step(c, s).ret == Ok(if (if c.op == JumpZero then v == 0 else v < 0) then c.targetPc else s.pc + 1)
  {
  }

  /** A call whose label was never resolved raises CannotFindJumpTarget. */
  lemma UnresolvedCallRaises(c: Command, s: MachineState)
    requires |s.heap| > 0 && c.op == CallSub && c.targetPc == -1
    ensures Step(c, s) == Raise(s, CannotFindJumpTarget)
  {
  }

  /** EndSub pops the call stack and returns the index popped: the PC of
      the call, which the loop then advances past. */
  lemma ReturnPopsCall(c: Command, s: MachineState, cs: seq<int>, r: int)
    requires |s.heap| > 0 && c.op == EndSub && s.callstack == cs + [r]
    ensures Step(c, s) == StepResult(s.(callstack := cs), Ok(r))
  {
    assert s.callstack[..|s.callstack| - 1] == cs;
  }

  /** Retrieve pops an address and pushes what the heap holds there: at a
      non-negative address the cell (0 past the end, after the array grew),
      at a negative one the element counted from the end; below minus the
      length it raises IndexError after the pop. */
  lemma RetrievePushesCell(c: Command, s: MachineState, xs: seq<int>, a: int)
    requires |s.heap| > 0 && c.op == ReadHeap && s.stack == xs + [a]
    ensures a >= 0 ==> Step(c, s) == Advance(s.(stack := xs + [Cell(s.heap, a)], heap := Grown(s.heap, a)))
    ensures -|s.heap| <= a < 0 ==> Step(c, s) == Advance(s.(stack := xs + [s.heap[|s.heap| + a]]))
    ensures a < -|s.heap| ==> Step(c, s) == Raise(s.(stack := xs), IndexError)
  {
    assert s.stack[..|s.stack| - 1] == xs;
    GrowthNeverShrinks(s.heap, a);
    if a >= 0 {
      ReadIsCell(s.heap, a);
    } else {
      NegativeAddresses(s.heap, a, 0);
    }
  }

  /** Store pops a value and an address and writes the value there: at a
      non-negative address that cell changes and no other, at a negative
      one the element counted from the end; below minus the length it
      raises IndexError after the pops. */
  lemma StoreWritesCell(c: Command, s: MachineState, xs: seq<int>, a: int, v: int)
    requires |s.heap| > 0 && c.op == WriteHeap && s.stack == xs + [a, v]
    ensures a >= 0 ==> Step(c, s).ret == Ok(s.pc + 1)
    ensures a >= 0 ==> Step(c, s).state == s.(stack := xs, heap := Step(c, s).state.heap)
    ensures a >= 0 ==> Cell(Step(c, s).state.heap, a) == v
    ensures a >= 0 ==> forall b: nat :: b != a ==> Cell(Step(c, s).state.heap, b) == Cell(s.heap, b)
    ensures -|s.heap| <= a < 0 ==> Step(c, s) == Advance(s.(stack := xs, heap := s.heap[|s.heap| + a := v]))
    ensures a < -|s.heap| ==> Step(c, s) == Raise(s.(stack := xs), IndexError)
  {
    assert s.stack[..|s.stack| - 2] == xs;
    GrowthNeverShrinks(s.heap, a);
    if a >= 0 {
      forall b: nat
        ensures b != a ==> Cell(Step(c, s).state.heap, b) == Cell(s.heap, b)
        ensures Cell(Step(c, s).state.heap, a) == v
      {
        WriteThenRead(s.heap, a, v, b);
      }
    } else {
      NegativeAddresses(s.heap, a, v);
    }
  }

  /** Duplicate and Swap on the stacks of whitespace/test/test_commands.py:127-162. */
  lemma StackCommandExamples()
    ensures var s := InitialState("").(stack := [24, 78]);
            Step(Plain(Duplicate, 1, NoLabel), s) == Advance(s.(stack := [24, 78, 78]))
    ensures var s := InitialState("").(stack := [24, 78, 44]);
            Step(Plain(Swap, 1, NoLabel), s) == Advance(s.(stack := [24, 44, 78]))
  {
    var s := InitialState("").(stack := [24, 78]);
    DuplicateCopiesTop(Plain(Duplicate, 1, NoLabel), s, [24], 78);
    var u := InitialState("").(stack := [24, 78, 44]);
    SwapExchangesTop(Plain(Swap, 1, NoLabel), u, [24], 78, 44);
  }

  /** Minus, IntDivide and Modulo on the stacks of
      whitespace/test/test_commands.py:220-312. */
  lemma ArithmeticExamples()
    ensures var s := InitialState("").(stack := [24, 78]);
            Step(Plain(Minus, 1, NoLabel), s) == Advance(s.(stack := [-54]))
    ensures var s := InitialState("").(stack := [10, 3]);
            Step(Plain(IntDivide, 1, NoLabel), s) == Advance(s.(stack := [3]))
    ensures var s := InitialState("").(stack := [10, 3]);
            Step(Plain(Modulo, 1, NoLabel), s) == Advance(s.(stack := [1]))
  {
    var s := InitialState("").(stack := [24, 78]);
    assert s.stack[..0] == [];
    var u := InitialState("").(stack := [10, 3]);
    assert u.stack[..0] == [];
  }

  /** Copy and Slide on the ten-element stack of
      whitespace/test/test_commands.py:323-380, and the operands they refuse. */
  lemma CopySlideExamples()
    ensures var s := InitialState("").(stack := [10, 11, 12, 13, 14, 15, 16, 17, 18, 19]);
            Step(WithOperand(Copy, 0, 2, NoLabel), s) == Advance(s.(stack := s.stack + [17]))
    ensures var s := InitialState("").(stack := [10, 11, 12, 13, 14, 15, 16, 17, 18, 19]);
            Step(WithOperand(Slide, 0, 3, NoLabel), s) == Advance(s.(stack := [10, 11, 12, 13, 14, 15, 19]))
    ensures var s := InitialState("").(stack := [10, 11, 12, 13, 14, 15, 16, 17, 18, 19]);
            Step(WithOperand(Copy, 0, 10, NoLabel), s).ret == Err(StackError) &&
            Step(WithOperand(Slide, 0, 10, NoLabel), s).ret == Err(StackError)
  {
    var t := [10, 11, 12, 13, 14, 15, 16, 17, 18, 19];
    var s := InitialState("").(stack := t);
    CopyPushesNth(WithOperand(Copy, 0, 2, NoLabel), s, t[..7], 17, t[8..]);
    SlideKeepsTop(WithOperand(Slide, 0, 3, NoLabel), s, t[..6], t[6..9], 19);
  }

  // ---------------------------------------------------------------------
  // The runtime objects

  /** A Python `array` of words used as a stack: `append` and `pop`. */
  class WordStack {
    var items: seq<int>

    constructor()
      ensures items == []
    {
      items := [];
    }

    /** `append(x)`. */
    method Append(x: int)
      modifies this
      ensures items == old(items) + [x]
    {
      items := items + [x];
    }

    /** `pop()`: remove and return the last element. */
    method Pop() returns (x: int)
      requires |items| > 0
      modifies this
      ensures old(items) == items + [x]
    {
      x := items[|items| - 1];
      items := items[..|items| - 1];
    }
  }

  /** `Runtime`: the objects every `execute` updates, and the files. */
  class Runtime {
    var stack: WordStack
    var heap: Heap
    var callstack: WordStack
    var PC: int
    var input: string
    var output: seq<OutputItem>

    ghost predicate Valid()
      reads this, heap
    {
      stack != callstack && heap.Valid()
    }

    /** The runtime's contents. */
    function State(): MachineState
      reads this, stack, callstack, heap, heap.arr
    {
      MachineState(stack.items, callstack.items, heap.Cells(), PC, input, output)
    }

    /** `Runtime(stack, heap, callstack, PC, file_in)`: a supplied object is
        kept by reference, a missing one is created empty. */
    constructor(st: WordStack?, hp: Heap?, cs: WordStack?, pc: int, text: string)
      requires st != null && cs != null ==> st != cs
      requires hp != null ==> hp.Valid()
      ensures Valid()
      ensures st != null ==> stack == st
      ensures st == null ==> fresh(stack) && stack.items == []
      ensures hp != null ==> heap == hp
      ensures hp == null ==> fresh(heap) && fresh(heap.arr) && heap.Cells() == FreshCells
      ensures cs != null ==> callstack == cs
      ensures cs == null ==> fresh(callstack) && callstack.items == []
      ensures PC == pc && input == text && output == []
    {
      if st != null {
        stack := st;
      } else {
        stack := new WordStack();
      }
      if hp != null {
        heap := hp;
      } else {
        heap := new Heap();
      }
      if cs != null {
        callstack := cs;
      } else {
        callstack := new WordStack();
      }
      PC := pc;
      input := text;
      output := [];
    }

    /** `command.execute(self)`. */
    method Execute(c: Command) returns (r: Result<int>)
      requires Valid()
      modifies this, stack, callstack, heap, heap.arr
      ensures Valid()
      ensures stack == old(stack) && callstack == old(callstack) && heap == old(heap)
      ensures fresh(heap.arr) || heap.arr == old(heap.arr)
      ensures State() == Step(c, old(State())).state
      ensures r == Step(c, old(State())).ret
    {
      if c.op in {Push, Duplicate, Swap, Discard, Copy, Slide} {
        r := ExecuteStackCommand(c);
      } else if c.op in {Plus, Minus, Times, IntDivide, Modulo} {
        r := ExecuteArithmetic(c);
      } else if c.op in {OutChar, OutNum, ReadChar, ReadNum} {
        r := ExecuteIO(c);
      } else if c.op in {ReadHeap, WriteHeap} {
        r := ExecuteHeap(c);
      } else {
        r := ExecuteFlow(c);
      }
    }

    method ExecuteStackCommand(c: Command) returns (r: Result<int>)
      requires Valid() && c.op in {Push, Duplicate, Swap, Discard, Copy, Slide}
      modifies stack
      ensures State() == StackStep(c, old(State())).state
      ensures r == StackStep(c, old(State())).ret
    {
      var n := |stack.items|;
      match c.op {
        case Push =>
          stack.Append(c.operand);
        case Duplicate =>
          if n == 0 {
            return Err(StackError);
          }
          stack.Append(stack.items[n - 1]);
        case Swap =>
          if n < 2 {
            return Err(StackError);
          }
          var top := stack.Pop();
          var second := stack.Pop();
          stack.Append(top);
          stack.Append(second);
        case Discard =>
          if n == 0 {
            return Err(StackError);
          }
          var _ := stack.Pop();
        case Copy =>
          if !(0 <= c.operand < n) {
            return Err(StackError);
          }
          stack.Append(stack.items[n - 1 - c.operand]);
        case Slide =>
          r := ExecuteSlide(c);
          return;
      }
      r := Ok(PC + 1);
    }

    /** Slide: keep the top, drop the `operand` items below it. */
    method ExecuteSlide(c: Command) returns (r: Result<int>)
      requires Valid() && c.op == Slide
      modifies stack
      ensures State() == StackStep(c, old(State())).state
      ensures r == StackStep(c, old(State())).ret
    {
      var n := |stack.items|;
      if !(0 <= c.operand < n) {
        return Err(StackError);
      }
      var top := stack.Pop();
      var k := 0;
      while k < c.operand
        invariant 0 <= k <= c.operand
        invariant stack.items == old(stack.items)[..n - 1 - k]
      {
        var _ := stack.Pop();
        k := k + 1;
      }
      stack.Append(top);
      r := Ok(PC + 1);
    }

    method ExecuteArithmetic(c: Command) returns (r: Result<int>)
      requires Valid() && c.op in {Plus, Minus, Times, IntDivide, Modulo}
      modifies stack
      ensures State() == ArithStep(c.op, old(State())).state
      ensures r == ArithStep(c.op, old(State())).ret
    {
      if |stack.items| < 2 {
        return Err(StackError);
      }
      var second := stack.Pop();
      var first := stack.Pop();
      assert stack.items == old(stack.items)[..|old(stack.items)| - 2];
      if (c.op == IntDivide || c.op == Modulo) && second == 0 {
        return Err(ZeroDivisionError);
      }
      stack.Append(Arithmetic(c.op, first, second));
      r := Ok(PC + 1);
    }

    /** The I/O commands: they change the stack and the files only. */
    method ExecuteIO(c: Command) returns (r: Result<int>)
      requires Valid() && c.op in {OutChar, OutNum, ReadChar, ReadNum}
      modifies this, stack
      ensures stack == old(stack) && callstack == old(callstack) && heap == old(heap)
      ensures State() == IOStep(c.op, old(State())).state
      ensures r == IOStep(c.op, old(State())).ret
    {
      if c.op == OutChar || c.op == OutNum {
        r := ExecuteOutput(c);
      } else if c.op == ReadChar {
        r := ExecuteReadChar(c);
      } else {
        r := ExecuteReadNum();
      }
    }

    method ExecuteOutput(c: Command) returns (r: Result<int>)
      requires Valid() && c.op in {OutChar, OutNum}
      modifies this, stack
      ensures stack == old(stack) && callstack == old(callstack) && heap == old(heap)
      ensures PC == old(PC) && input == old(input)
      ensures State() == IOStep(c.op, old(State())).state
      ensures r == IOStep(c.op, old(State())).ret
    {
      if |stack.items| == 0 {
        return Err(StackError);
      }
      var v := stack.Pop();
      if c.op == OutChar {
        if !(0 <= v <= MaxCodePoint) {
          return Err(ValueError);
        }
        output := output + [Char(v)];
      } else {
        output := output + [Number(v)];
      }
      r := Ok(PC + 1);
    }

    method ExecuteReadChar(c: Command) returns (r: Result<int>)
      requires Valid() && c.op == ReadChar
      modifies this, stack
      ensures stack == old(stack) && callstack == old(callstack) && heap == old(heap)
      ensures PC == old(PC) && output == old(output)
      ensures State() == IOStep(c.op, old(State())).state
      ensures r == IOStep(c.op, old(State())).ret
    {
      var text := input;
      input := [];
      if text == [] {
        return Err(IndexError);
      }
      var d := DigitValue(text[0]);
      if d.None? {
        return Err(ValueError);
      }
      stack.Append(d.value);
      r := Ok(PC + 1);
    }

    method ExecuteReadNum() returns (r: Result<int>)
      requires Valid()
      modifies this, stack
      ensures stack == old(stack) && callstack == old(callstack) && heap == old(heap)
      ensures PC == old(PC) && output == old(output)
      ensures State() == ReadNumStep(old(State())).state
      ensures r == ReadNumStep(old(State())).ret
    {
      var (line, rest) := ReadLine(input);
      input := rest;
      var v := ParseInt(line);
      if v.None? {
        r := Err(ValueError);
      } else {
        stack.Append(v.value);
        r := Ok(PC + 1);
      }
    }

    method ExecuteFlow(c: Command) returns (r: Result<int>)
      requires Valid() && c.op in {End, CallSub, EndSub, Jump, JumpZero, JumpNegative}
      modifies callstack
      ensures State() == FlowStep(c, old(State())).state
      ensures r == FlowStep(c, old(State())).ret
    {
      match c.op {
        case End =>
          r := Ok(-1);
        case CallSub =>
          if c.targetPc != -1 {
            callstack.Append(PC);
            r := Ok(c.targetPc);
          } else {
            r := Err(CannotFindJumpTarget);
          }
        case EndSub =>
          if |callstack.items| == 0 {
            return Err(StackError);
          }
          var back := callstack.Pop();
          r := Ok(back);
        case Jump =>
          r := Ok(c.targetPc);
        case JumpZero =>
          if |stack.items| == 0 {
            return Err(StackError);
          }
          r := Ok(if stack.items[|stack.items| - 1] == 0 then c.targetPc else PC + 1);
        case JumpNegative =>
          if |stack.items| == 0 {
            return Err(StackError);
          }
          r := Ok(if stack.items[|stack.items| - 1] < 0 then c.targetPc else PC + 1);
      }
    }

    method ExecuteHeap(c: Command) returns (r: Result<int>)
      requires Valid() && c.op in {ReadHeap, WriteHeap}
      modifies stack, heap, heap.arr
      ensures Valid()
      ensures fresh(heap.arr) || heap.arr == old(heap.arr)
      ensures State() == HeapStep(c.op, old(State())).state
      ensures r == HeapStep(c.op, old(State())).ret
    {
      if c.op == ReadHeap {
        r := ExecuteRetrieve(c);
      } else {
        r := ExecuteStore(c);
      }
    }

    /** Read_Heap: replace the address on top with the cell's value. */
    method ExecuteRetrieve(c: Command) returns (r: Result<int>)
      requires Valid() && c.op == ReadHeap
      modifies stack, heap, heap.arr
      ensures Valid()
      ensures fresh(heap.arr) || heap.arr == old(heap.arr)
      ensures State() == HeapStep(c.op, old(State())).state
      ensures r == HeapStep(c.op, old(State())).ret
    {
      if |stack.items| == 0 {
        return Err(StackError);
      }
      var address := stack.Pop();
      var v := heap.Read(address);
      if v.Err? {
        return Err(v.error);
      }
      stack.Append(v.value);
      r := Ok(PC + 1);
    }

    /** Write_Heap: pop the value, then the address, and store. */
    method ExecuteStore(c: Command) returns (r: Result<int>)
      requires Valid() && c.op == WriteHeap
      modifies stack, heap, heap.arr
      ensures Valid()
      ensures fresh(heap.arr) || heap.arr == old(heap.arr)
      ensures State() == HeapStep(c.op, old(State())).state
      ensures r == HeapStep(c.op, old(State())).ret
    {
      if |stack.items| < 2 {
        return Err(StackError);
      }
      var value := stack.Pop();
      var address := stack.Pop();
      assert stack.items == old(stack.items)[..|old(stack.items)| - 2];
      var done := heap.Write(address, value);
      if done.Fail? {
        return Err(done.error);
      }
      r := Ok(PC + 1);
    }
  }
}
