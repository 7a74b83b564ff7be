# A verified model of the Whitespace interpreter

This project models the core of a Python interpreter for the Whitespace language, in which a program is spelled with Space, Tab and Linefeed characters. It covers the following stages:

- **Tokenizer** (`whitespace/tokenizer.py`). Turns source text into tokens, in strict mode or in "readable" mode, where the `[Space]`/`[Tab]`/`[LF]` brackets are used.
- **Parser** (`whitespace/Parser.py`). A recursive-descent parser that turns tokens into commands. Labels are set by a `mark` and carried to the next command.
- **Instruction set** (`whitespace/Commands.py`). Each command's record, its equality, and its minified text, built from `encodeNumber` and `encodeLabel`. Its `execute` acts on a `Runtime` (`whitespace/Runtime.py`), which holds:
  - a data stack;
  - a call stack;
  - a `Heap` (`whitespace/Heap.py`), a word array that doubles until an address fits;
  - a PC;
  - the input and output files.
- **Flow resolver** (`visit_flow_control`, `whitespace/Visitor.py`). Maps labels to command indices, rejects duplicate labels, and writes `target_pc` into every call and jump.
- **Interpreter loop** (`whitespace/Runner.py`).

Each imperative part of the source has two layers in the model:

- A specification function on values:
  - `Lexer.NextTokenAt`;
  - `Parsing.NextCommandAt` and its siblings;
  - `Machine.Step`;
  - `FlowResolver.VisitFlowControl`;
  - `Runner.Run`.
- An imperative class or method proved to compute it:
  - `Lexer.Tokenizer`, `Parsing.Parser` and `Machine.Runtime`, which has `WordStack`s and a `Memory.Heap` over an `array`;
  - `FlowResolver.ResolveFlow`, which works in place on an `array<Command>`;
  - `Runner.Loop`.

Lemmas then state what the source promises about those functions.

The main results:

- **Minifier round trip.** Parsing the minified text of a program gives back its commands, ignoring line numbers. This is the property the minifier test checks.
- **Flow resolution:**
  - labels are detected and resolved;
  - every resolved target points at its label;
  - nothing but `target_pc` changes;
  - the pass is idempotent.
- **Machine step laws:**
  - what every command does to the runtime, for every state: the new stacks, heap, output and input, and the index returned or the exception raised;
  - a StackError is raised exactly on underflow;
  - each command's stack and call-stack effect;
  - the frame of each command;
  - a call followed by a return;
  - a store followed by a retrieve;
  - a read of a number that was printed.
- **Loop:** each turn halts at PC -1, fetches `program[PC]` with Python indexing (IndexError outside), and goes on from the index the command returned; End halts the run.
- **Heap laws:**
  - growth keeps cells and only doubles;
  - a cell never written reads 0.
- **Code vs. intent.** Four places where the tokenizer, the number encoder, the loop and the call, as written, do not do what the authors evidently intended. Each is modelled as written and corrected (see Findings).

Where the language's intended behaviour and the code disagree, the model follows the code:

- `TokenType.fromString` classifies every string as a Space.
- The loop never stores its PC into `runtime.PC`.
- `CallSub` pushes the index of the call itself.
- `ReadChar` applies `int()` to the first character of the input and pushes the digit's value, and `ReadNum` applies `int()` to one line and pushes the number. Their tests expect something else: `test_read_char` and `test_read_num` (`whitespace/test/test_commands.py:19-60`) pop an address and store the value in the heap (97, the code of "a", at address 98; 103 at address 98), and the `_throws` tests expect a StackError on an empty stack. The code neither pops nor raises StackError, and the model follows the code.

`Copy` and `Slide` are imported by `Parser.py` but never defined in `Commands.py` (line 172 says they are not implemented). Their behaviour follows `whitespace/test/test_commands.py:323-380`.

## Model

| member | source | states |
|---|---|---|
| Base.PyIndex | whitespace/Runner.py:16 | Python `xs[i]`. It is defined exactly for `-len <= i < len`: a non-negative index is itself, and a negative one counts back from the end. Anything else is an IndexError. |
| Base.FloorDiv | whitespace/Commands.py:255-262 | Python `//`. The quotient is the floor of a/b for either sign of the divisor. |
| Base.FloorMod | whitespace/Commands.py:280-287 | Python `%`. `a == b*(a//b) + r`, and the remainder has the divisor's sign and is smaller in magnitude. |
| Codec.Bits | whitespace/Commands.py:60-71 | The binary digits of a label: only Space/Tab, empty exactly for 0, and led by a Tab (no leading zero). |
| Codec.Reverse | whitespace/Commands.py:54 | `out[::-1]`: position i of the result is position `len-1-i` of the input. |
| Codec.EncodeLabel | whitespace/Commands.py:60-71 | A label's text is Space/Tab digits closed by exactly one linefeed. |
| Codec.EncodeNumber | whitespace/Commands.py:45-56 | A number's text opens with its sign character (Tab iff negative), then digits, then a linefeed. A non-zero number's first digit is a Tab. This is the corrected, total encoder. |
| Codec.EncodeLabelLoop | whitespace/Commands.py:60-71 | The source's loop (append bits, reverse, add a linefeed) computes EncodeLabel for every integer, including negative ones, which give just a linefeed. |
| Codec.EncodeNumberAsWritten | whitespace/Commands.py:45-56 | The source's loop, for the inputs on which it terminates (n >= 0), computes EncodeNumber. |
| Codec.NegativeNeverTerminates | whitespace/Commands.py:50-53 | For negative n, the loop variable after any number of `n // 2` steps is still negative, so `while n > 0 or n < 0` never exits. |
| Commands.Same | whitespace/Commands.py:28-32 | `__eq__` with line numbers compared, without a contract of its own. Commands.SameIsEquality states it. |
| Commands.SameIgnoringLine | whitespace/Commands.py:28-32 | `__eq__` with `ignore_line_number` set, without a contract of its own. Commands.SameIsEquality states it. |
| Commands.SameIsEquality | whitespace/Commands.py:28-32 | `__eq__` (command class, line and label; operand and targets for those commands) is exactly structural equality. With `ignore_line_number` it is equality up to the line. |
| Commands.OpcodeIsNotMark | whitespace/Commands.py:36-41 | No opcode text opens with the mark prefix "\n  ", so a mark and a command never collide. |
| Commands.OpcodeText | whitespace/Commands.py:95-593 | The opcode each class's `minified` writes, without a contract of its own. Commands.OpcodeIsNotMark and Parsing.ParsesOpcode state it. |
| Commands.Operand | whitespace/Commands.py:95-96 | The encoded number or target label after an opcode, without a contract of its own. Minifier.NumberBodyRoundTrip and Minifier.FlowBodyRoundTrip state it. |
| Commands.Minified | whitespace/Commands.py:36-41 | A command's `minified`: label mark, opcode, operand. It has no contract of its own. Commands.MinifiedOpensWithMark and Minifier.CommandRoundTrip state it. |
| Commands.Minify | whitespace/test/test_minifier.py:16-34 | A program's minified text, without a contract of its own. Minifier.MinifyThenParse states its round trip. |
| Commands.MinifiedOpensWithMark | whitespace/Commands.py:36-41 | A command's minified text opens with the mark exactly when the command carries a label. |
| Lexer.FromString | whitespace/tokenizer.py:10-19 | As written, `fromString` classifies every string as Space: the `or` with a non-empty literal is always truthy. |
| Lexer.CharKind | whitespace/test/test_tokenizer.py:6-9 | The intended classification: never EOF, Space exactly for ' ', Tab exactly for '\t'. |
| Lexer.CountPositiveIffContains | whitespace/tokenizer.py:32 | `text.count("[") > 0` holds exactly when '[' occurs in the text. |
| Lexer.FindFrom | whitespace/tokenizer.py:43 | `str.index(c, start)`: the first occurrence at or after `start`, or none when there is none. |
| Lexer.NextTokenAt | whitespace/tokenizer.py:38-65 | A successful scan never moves backwards. It yields only Space or EOF tokens. A non-EOF token consumes at least one character. EOF comes exactly at the end, on the current line. |
| Lexer.AllTokensFrom | whitespace/tokenizer.py:67-74 | `allTokens` on values, without a contract of its own. Lexer.AllTokensAreSpaces and Lexer.Tokenizer.AllTokens state it. |
| Lexer.EofForever | whitespace/tokenizer.py:39-40 | At the end of the text every call returns EOF on the current line and stays put. |
| Lexer.AllTokensAreSpaces | whitespace/tokenizer.py:67-74 | Every token `allTokens` returns is a Space, a consequence of `fromString`. |
| Lexer.ReadableBracket | whitespace/tokenizer.py:42-48 | In readable mode a '[' is a token up to its ']'. A '[' without a ']' raises ValueError. |
| Lexer.ReadableSkips | whitespace/tokenizer.py:49-53 | In readable mode any other character is skipped. A linefeed counts a line. |
| Lexer.StrictScan | whitespace/tokenizer.py:54-65 | In strict mode a non-whitespace character recurses without advancing (the source never returns). A whitespace character is a token on the line before the next character's linefeed. Whitespace as the last character raises IndexError. |
| Lexer.Tokenizer.constructor | whitespace/tokenizer.py:28-32 | The tokenizer starts at index 0, line 1, in readable mode exactly when the text contains '['. |
| Lexer.Tokenizer.ReturnNextToken | whitespace/tokenizer.py:34-36 | Skips one character, then behaves as NextTokenAt from there. |
| Lexer.Tokenizer.NextToken | whitespace/tokenizer.py:38-65 | On success the token, index and line are those NextTokenAt gives. On failure the exception is NextTokenAt's. Either way index and line never decrease. |
| Lexer.Tokenizer.AllTokens | whitespace/tokenizer.py:67-74 | The collected list is AllTokensFrom from the current position. |
| Memory.Grown | whitespace/Heap.py:8-14 | An access doubles the array until the address fits. The new length is the old times a power of two, old cells are kept, and new ones are zero. |
| Memory.HeapRead | whitespace/Heap.py:8-14 | `read` succeeds exactly when the address is at least minus the array's length. |
| Memory.HeapWrite | whitespace/Heap.py:16-22 | `write` succeeds exactly when the address is at least minus the length. The new array is no shorter and holds the address. |
| Memory.GrowthKeepsCells | whitespace/Heap.py:11-14 | Doubling changes no address's value. |
| Memory.GrowthNeverShrinks | whitespace/Heap.py:8-14 | The array never shrinks, and it grows exactly when the address does not fit. |
| Memory.ReadIsCell | whitespace/Heap.py:8-14 | `read` of a non-negative address is its cell's value, 0 when never written. |
| Memory.WriteThenRead | whitespace/Heap.py:16-22 | A write to a non-negative address succeeds, sets that cell, and leaves every other cell unchanged. |
| Memory.NegativeAddresses | whitespace/Heap.py:8-22 | A negative address indexes from the end when it is within the array and raises IndexError otherwise, for both read and write. |
| Memory.NeverWrittenReadsZero | whitespace/test/test_heap.py:39-45 | After any writes, an address none of them touched reads 0. |
| Memory.CapacityIsPowerOfTwo | whitespace/Heap.py:5-6 | Starting from four cells, the array length is always 4 times a power of two. |
| Memory.MillionthAddress | whitespace/test/test_heap.py:18-37 | A fresh heap reads 0 at address 1000000, and a write there reads back. |
| Memory.Heap.constructor | whitespace/Heap.py:5-6 | A new heap is four zero words. |
| Memory.Heap.Double | whitespace/Heap.py:12 | `arr.extend([0] * len(arr))`: the contents gain as many zeros as they had cells. |
| Memory.Heap.Read | whitespace/Heap.py:8-14 | The value is HeapRead of the old contents, and the array afterwards is Grown for that address. |
| Memory.Heap.Write | whitespace/Heap.py:16-22 | Succeeds exactly when HeapWrite does, and the new contents are HeapWrite's. On failure: IndexError, with only the doubling done. |
| Numerals.DigitValue | whitespace/Commands.py:358-362 | `int()` of one character is defined exactly for a decimal digit, and is below 10. |
| Numerals.DigitChar | whitespace/Commands.py:333-338 | The character printed for a digit is a digit whose value is that digit. |
| Numerals.ReadLine | whitespace/Commands.py:381-386 | `readline()` splits the input into a line and the rest. The line ends with its linefeed whenever input remains, and is non-empty unless the input is. |
| Numerals.ReadLineStopsAtLinefeed | whitespace/Commands.py:381-386 | The line holds no linefeed before its last character. |
| Numerals.TrimStart | whitespace/Commands.py:381-386 | After `int()` strips leading whitespace, the text does not open with whitespace. |
| Numerals.TrimEnd | whitespace/Commands.py:381-386 | After stripping trailing whitespace, the text does not end with whitespace. |
| Numerals.NatText | whitespace/Commands.py:333-338 | A printed natural number is a non-empty run of digits. |
| Numerals.IntText | whitespace/Commands.py:333-338 | A printed integer has no surrounding whitespace. |
| Numerals.NatTextValue | whitespace/Commands.py:333-338 | Reading the digits of a printed natural gives it back. |
| Numerals.SignedText | whitespace/Commands.py:381-386 | Reading a printed integer, sign included, gives it back. |
| Numerals.ParseInt | whitespace/Commands.py:383 | `int(line)`: strip whitespace, then a signed decimal. It has no contract of its own. Numerals.ParseIntText and Machine.ReadNumRejects state it. |
| Numerals.ParseSigned | whitespace/Commands.py:383 | An optional sign and at least one digit, without a contract of its own. Numerals.SignedText states it. |
| Numerals.ParseIntText | whitespace/Commands.py:381-386 | `int()` of a printed integer padded with whitespace on either side gives the integer back. |
| Numerals.StripPadded | whitespace/Commands.py:381-386 | Stripping the whitespace padding around a text with no outer whitespace gives exactly the text. |
| Numerals.TrimStartSpaces | whitespace/Commands.py:381-386 | Leading whitespace is removed, and nothing after it is. |
| Numerals.TrimEndSpaces | whitespace/Commands.py:381-386 | Trailing whitespace is removed, and nothing before it is. |
| Numerals.ParsesPaddedLine | whitespace/test/test_commands.py:19-33 | A line of 103 with leading whitespace and a linefeed reads as 103. |
| Machine.StackStep | whitespace/Commands.py:77-170 | A stack command leaves the PC alone, and on success returns the next index `runtime.PC + 1`. |
| Machine.ArithStep | whitespace/Commands.py:178-298 | An arithmetic command leaves the PC alone, and on success returns `runtime.PC + 1`. |
| Machine.IOStep | whitespace/Commands.py:304-398 | An I/O command leaves the PC alone, and on success returns `runtime.PC + 1`. |
| Machine.HeapStep | whitespace/Commands.py:548-594 | A heap command leaves the PC alone, and on success returns `runtime.PC + 1`. |
| Machine.FlowStep | whitespace/Commands.py:404-541 | A flow command changes nothing but the call stack, and when it raises it changes nothing at all. |
| Machine.BranchStep | whitespace/Commands.py:500-529 | The conditional jumps' shared step, without a contract of its own. Machine.BranchTestsTop states it. |
| Machine.ReadNumStep | whitespace/Commands.py:377-386 | `int(file_in.readline())` pushed, without a contract of its own. Machine.ReadNumParsesLine and Machine.ReadNumRejects state it. |
| Machine.Arithmetic | whitespace/Commands.py:182-286 | `first OP second` with Python's floor `//` and `%`, without a contract of its own. Machine.FloorArithmetic, Base.FloorDiv and Base.FloorMod state it. |
| Machine.InitialState | whitespace/Runtime.py:8-14 | `Runtime()` with every argument defaulted, without a contract of its own: empty stacks, a heap of four zeros, PC 0, nothing printed. |
| Machine.Step | whitespace/Commands.py:18-19 | `execute` never writes `runtime.PC`, and the heap stays a non-empty array. |
| Machine.StackErrorIffUnderflow | whitespace/Commands.py:99-170 | A command raises StackError exactly when one of its stacks holds fewer items than it needs, and it then leaves the runtime untouched. |
| Machine.StepEffect | whitespace/Commands.py:77-594 | On success, each command changes the stack depth and the call-stack depth by its fixed effect. Slide drops its operand count. |
| Machine.StepFrame | whitespace/Commands.py:77-594 | Only the heap commands touch the heap. Only I/O touches input and output. Only CallSub and EndSub touch the call stack. |
| Machine.ArithmeticOrder | whitespace/Commands.py:182-188 | Arithmetic pops the right operand first and pushes `left op right` with Python semantics, the rest of the stack untouched. |
| Machine.FloorArithmetic | whitespace/Commands.py:255-287 | Division and modulo floor: -7//2 = -4, -7%2 = 1, 7//-2 = -4, 7%-2 = -1. |
| Machine.SwapTwice | whitespace/Commands.py:127-135 | Swapping twice restores the runtime. |
| Machine.CallThenReturn | whitespace/Commands.py:430-457 | A resolved call jumps to its target and pushes the runtime PC. A return right after it restores the runtime and returns that same PC. |
| Machine.StoreThenRetrieve | whitespace/Commands.py:552-582 | A store followed by a retrieve of the same address pushes the stored value. |
| Machine.ReadNumReadsLine | whitespace/Commands.py:381-386 | Reading a number from a line holding a printed integer pushes that integer and consumes exactly the line. |
| Machine.ReadNumParsesLine | whitespace/Commands.py:381-386 | The same for the number-reading step itself. |
| Machine.IntTextHasNoLinefeed | whitespace/Commands.py:333-338 | A printed integer contains no linefeed. |
| Machine.ReadLineOfLine | whitespace/Commands.py:381-386 | `readline()` on a line and more returns exactly that line. |
| Machine.ReadCharTakesDigit | whitespace/Commands.py:358-362 | ReadChar with a digit first pushes its value and, as written, consumes the whole input. |
| Machine.PushAppendsOperand | whitespace/Commands.py:82-84 | Push appends its number, changes nothing else, and returns `runtime.PC + 1`. |
| Machine.DuplicateCopiesTop | whitespace/Commands.py:103-108 | On a stack `xs + [a]`, Duplicate leaves `xs + [a, a]` and returns `runtime.PC + 1`. |
| Machine.SwapExchangesTop | whitespace/Commands.py:127-135 | On a stack `xs + [a, b]`, Swap leaves `xs + [b, a]`. |
| Machine.DiscardDropsTop | whitespace/Commands.py:153-158 | On a stack `xs + [a]`, Discard leaves `xs`. |
| Machine.CopyPushesNth | whitespace/test/test_commands.py:323-351 | On a stack `xs + [v] + ys` where ys holds as many items as the operand, Copy pushes v. |
| Machine.SlideKeepsTop | whitespace/test/test_commands.py:353-380 | On a stack `xs + ys + [top]` where ys holds as many items as the operand, Slide leaves `xs + [top]`. |
| Machine.ZeroDivisorRaises | whitespace/Commands.py:255-286 | `//` and `%` with a zero top raise ZeroDivisionError after both operands were popped. |
| Machine.OutCharPrints | whitespace/Commands.py:308-314 | OutChar pops v and prints `chr(v)`. A v outside 0..0x10FFFF raises ValueError after the pop. |
| Machine.OutNumPrints | whitespace/Commands.py:333-339 | OutNum pops v and prints it as a number. |
| Machine.ReadCharRejects | whitespace/Commands.py:358-362 | ReadChar on empty input raises IndexError. On input that does not start with a digit it raises ValueError, with the input used up and nothing pushed. |
| Machine.ReadNumRejects | whitespace/Commands.py:381-386 | ReadNum on a line that is not an integer raises ValueError, with the line consumed and nothing pushed. |
| Machine.EndStops | whitespace/Commands.py:408-409 | End returns -1 and changes nothing. |
| Machine.JumpGoesToTarget | whitespace/Commands.py:478-479 | Jump returns its `target_pc` and changes nothing. |
| Machine.BranchTestsTop | whitespace/Commands.py:500-529 | JumpZero and JumpNegative leave the runtime as it is, and return the target exactly when the top is zero (resp. negative), `runtime.PC + 1` otherwise. |
| Machine.UnresolvedCallRaises | whitespace/Commands.py:430-435 | A CallSub whose `target_pc` is -1 raises CannotFindJumpTarget and changes nothing. |
| Machine.ReturnPopsCall | whitespace/Commands.py:454-457 | On a call stack `cs + [r]`, EndSub leaves `cs` and returns r. |
| Machine.RetrievePushesCell | whitespace/Commands.py:552-558 | Read_Heap pops an address a. For a >= 0 it pushes the cell's value (0 if never written) and grows the heap to fit a. For a negative a within the array it pushes the element counted from the end. Below that it raises IndexError after the pop. |
| Machine.StoreWritesCell | whitespace/Commands.py:576-582 | Write_Heap pops a value v and an address a. For a >= 0 cell a becomes v and every other cell keeps its value. For a negative a within the array the element counted from the end becomes v. Below that it raises IndexError after the pops. |
| Machine.StackCommandExamples | whitespace/test/test_commands.py:127-162 | Duplicate on [24, 78] leaves [24, 78, 78], and Swap on [24, 78, 44] leaves [24, 44, 78]. |
| Machine.ArithmeticExamples | whitespace/test/test_commands.py:220-312 | Minus on [24, 78] leaves [-54]; IntDivide and Modulo on [10, 3] leave [3] and [1]. |
| Machine.CopySlideExamples | whitespace/test/test_commands.py:323-380 | Copy 2 on 10..19 pushes 17. Slide 3 leaves [10, 11, 12, 13, 14, 15, 19]. Copy 10 and Slide 10 raise StackError. |
| Machine.WordStack.constructor | whitespace/Runtime.py:9-11 | A new word array is empty. |
| Machine.WordStack.Append | whitespace/Commands.py:82-84 | `append` adds one item at the top. |
| Machine.WordStack.Pop | whitespace/Commands.py:153-158 | `pop` removes and returns the top item. |
| Machine.Runtime.constructor | whitespace/Runtime.py:8-14 | Given stacks and a heap are used as they are. Missing ones are fresh: empty stacks and a heap of four zeros. The PC and input are the arguments, and the output is empty. |
| Machine.Runtime.Execute | whitespace/Commands.py:18-19 | Executing a command on the runtime objects moves them from one state to the next exactly as Step says, and returns or raises what Step says. |
| Machine.Runtime.ExecuteStackCommand | whitespace/Commands.py:77-170 | Performs StackStep on the runtime's stack. |
| Machine.Runtime.ExecuteSlide | whitespace/test/test_commands.py:353-380 | Slide keeps the top and drops `operand` items below it, as StackStep says. |
| Machine.Runtime.ExecuteArithmetic | whitespace/Commands.py:178-298 | Performs ArithStep on the runtime's stack. |
| Machine.Runtime.ExecuteIO | whitespace/Commands.py:304-398 | Performs IOStep on the runtime's stack and files. |
| Machine.Runtime.ExecuteOutput | whitespace/Commands.py:304-351 | OutChar and OutNum pop and print, as IOStep says. |
| Machine.Runtime.ExecuteReadChar | whitespace/Commands.py:354-374 | ReadChar performs IOStep. |
| Machine.Runtime.ExecuteReadNum | whitespace/Commands.py:377-398 | ReadNum performs the number-reading step. |
| Machine.Runtime.ExecuteFlow | whitespace/Commands.py:404-541 | Flow commands act on the call stack and return their target, as FlowStep says. |
| Machine.Runtime.ExecuteHeap | whitespace/Commands.py:548-594 | Heap commands perform HeapStep, on a heap array that may have been reallocated. |
| Machine.Runtime.ExecuteRetrieve | whitespace/Commands.py:548-570 | Read_Heap performs HeapStep. |
| Machine.Runtime.ExecuteStore | whitespace/Commands.py:572-594 | Write_Heap performs HeapStep. |
| Parsing.EofIsSticky | whitespace/Parser.py:30-32 | Once at EOF, reading a token returns EOF again and does not move. |
| Parsing.ParseBits | whitespace/Parser.py:94-104 | Reading digits never moves backwards, and from a non-negative start the value never decreases. |
| Parsing.LabelAt | whitespace/Parser.py:110-126 | A label read stays within the stream. |
| Parsing.NumberAt | whitespace/Parser.py:82-108 | A number read stays within the stream. |
| Parsing.StackManipAt | whitespace/Parser.py:56-79 | Stack-command parsing stays within the stream. |
| Parsing.IOAt | whitespace/Parser.py:170-192 | I/O-command parsing stays within the stream. |
| Parsing.ArithAt | whitespace/Parser.py:195-219 | Arithmetic-command parsing stays within the stream. |
| Parsing.HeapAt | whitespace/Parser.py:222-230 | Heap-command parsing stays within the stream. |
| Parsing.FlowControlAt | whitespace/Parser.py:129-167 | Flow parsing stays within the stream, and a command it produces has consumed the pending label. |
| Parsing.NextCommandAt | whitespace/Parser.py:29-53 | A produced command advanced the position and consumed the pending label. The result is "no command" exactly at EOF. |
| Parsing.AllCommandsFrom | whitespace/Parser.py:20-26 | `allCommands` on values, without a contract of its own. Parsing.Parser.AllCommands and Minifier.MinifyThenParse state it. |
| Parsing.Parse | whitespace/Parser.py:20-26 | `allCommands` from the start, without a contract of its own. Minifier.ParseThenMinify states it. |
| Parsing.LabelIsNatural | whitespace/Parser.py:110-126 | A label is never negative. Without a digit it is 0, and its terminator is consumed. |
| Parsing.NumberSign | whitespace/Parser.py:82-108 | A Space sign gives a value >= 0 and a Tab sign one <= 0. No digits gives 0. A missing sign gives -1 and consumes the token. |
| Parsing.NoneExactlyAtEof | whitespace/Parser.py:29-32 | `nextCommand` returns None exactly at EOF. |
| Parsing.EofInsideOpcode | whitespace/Parser.py:29-230 | EOF after any proper prefix of an opcode raises the parse error: after any first token, after the second token of a Tab- or Linefeed-led opcode or of a Space-led one other than Push, and after the third token of an arithmetic or I/O opcode. |
| Parsing.SpellsMark | whitespace/Parser.py:129-137 | The mark text is Linefeed, Space, Space. |
| Parsing.MarkBeforeEof | whitespace/Parser.py:129-137 | A mark with no command after it raises the parse error. |
| Parsing.MarkSetsLabel | whitespace/Parser.py:129-137 | A mark reads its label and makes it the pending label of the next command, which is then parsed. |
| Parsing.ParsesOpcode | whitespace/Parser.py:29-230 | The tokens of any opcode parse as that command. It carries the pending label and the line of its last opcode token, with its number or target label read right after. Flow commands start with target -1. |
| Parsing.OnlyOpcodesParse | whitespace/Parser.py:29-53 | Conversely, a command is produced only where a mark or that command's opcode is spelled. |
| Parsing.OnlyOpcodesParseAfterSpace | whitespace/Parser.py:56-79 | The converse for Space-led commands. |
| Parsing.OnlyOpcodesParseAfterTab | whitespace/Parser.py:39-46 | The converse for Tab-led commands. |
| Parsing.OnlyOpcodesParseAfterLinefeed | whitespace/Parser.py:129-167 | The converse for Linefeed-led commands. |
| Parsing.ParsedCommandsMinifiable | whitespace/Parser.py:20-26 | Every parsed command can be minified: its labels are natural and its flow target is unresolved. |
| Parsing.NextCommandMinifiable | whitespace/Parser.py:29-53 | The same for a single command. |
| Parsing.FlowControlMinifiable | whitespace/Parser.py:129-167 | The same for a flow command. |
| Parsing.Parser.constructor | whitespace/Parser.py:9-11 | The parser starts at the first token with no pending label. |
| Parsing.Parser.NextToken | whitespace/Parser.py:30 | Reading a token returns the token at the position and advances past it (not past EOF). |
| Parsing.Parser.GetLabel | whitespace/Parser.py:13-17 | Returns the pending label and resets it to -1. |
| Parsing.Parser.ReadBits | whitespace/Parser.py:94-104 | The shift-accumulate loop computes ParseBits. |
| Parsing.Parser.ParseNumber | whitespace/Parser.py:82-108 | Computes NumberAt. |
| Parsing.Parser.ParseLabel | whitespace/Parser.py:110-126 | Computes LabelAt. |
| Parsing.Parser.ParseStackManip | whitespace/Parser.py:56-79 | Computes StackManipAt. |
| Parsing.Parser.ParseIO | whitespace/Parser.py:170-192 | Computes IOAt. |
| Parsing.Parser.ParseArith | whitespace/Parser.py:195-219 | Computes ArithAt. |
| Parsing.Parser.ParseHeap | whitespace/Parser.py:222-230 | Computes HeapAt. |
| Parsing.Parser.ParseFlowControl | whitespace/Parser.py:129-167 | Computes FlowControlAt, error included. |
| Parsing.Parser.NextCommand | whitespace/Parser.py:29-53 | Computes NextCommandAt, parse error included. |
| Parsing.Parser.AllCommands | whitespace/Parser.py:20-26 | The loop collects exactly AllCommandsFrom. |
| Minifier.BitsReadBack | whitespace/Commands.py:60-71 | Reading back the digits of n gives n. |
| Minifier.ParseBitsReads | whitespace/Parser.py:94-104 | The parser's digit loop over spelled digits and a linefeed returns their value and stops after the linefeed. |
| Minifier.LabelRoundTrip | whitespace/Commands.py:60-71 | `parseLabel` of `encodeLabel(n)` is n, and the whole text is consumed. |
| Minifier.NumberText | whitespace/Commands.py:45-56 | A number's text is its sign character followed by the digits of its magnitude and a linefeed. |
| Minifier.NumberRoundTrip | whitespace/Commands.py:45-56 | `parseNumber` of `encodeNumber(n)` is n for every integer, and the whole text is consumed. |
| Minifier.BodyRoundTrip | whitespace/Commands.py:95-593 | An opcode text with its operand parses back as the command. |
| Minifier.NumberBodyRoundTrip | whitespace/Commands.py:95-96 | The same for Push, Copy and Slide. |
| Minifier.FlowBodyRoundTrip | whitespace/Commands.py:446-447 | The same for calls and jumps. |
| Minifier.PlainBodyRoundTrip | whitespace/Commands.py:119-120 | The same for commands without operands. |
| Minifier.CommandRoundTrip | whitespace/Commands.py:36-41 | A command's minified text, its label mark included, parses back as the same command (line aside). |
| Minifier.LabelledRoundTrip | whitespace/Commands.py:38-39 | The same for a labelled command. |
| Minifier.MarkThenCommand | whitespace/Parser.py:129-137 | A mark followed by a command parses as that command carrying the mark's label. |
| Minifier.MinifyFront | whitespace/test/test_minifier.py:16-34 | A program's minified text is its first command's text followed by the rest's. |
| Minifier.AllCommandsAfter | whitespace/Parser.py:20-26 | If the rest of the program parses back after the first command, so does the whole program. |
| Minifier.ProgramSplit | whitespace/test/test_minifier.py:16-34 | The spelled text of a program splits into the first command's text and the rest's. |
| Minifier.NothingAtEnd | whitespace/Parser.py:20-26 | At the end of the stream the command list is empty. |
| Minifier.ProgramStep | whitespace/Parser.py:20-26 | One induction step of the program round trip. |
| Minifier.ProgramRoundTripFrom | whitespace/test/test_minifier.py:16-34 | Any stream that spells the minified program from some position parses back to the program's commands, lines aside. |
| Minifier.MinifyThenParse | whitespace/test/test_minifier.py:16-34 | Parsing the minified text of any minifiable program succeeds, and gives back its commands under `ignore_line_number` equality. |
| Minifier.ParseThenMinify | whitespace/test/test_minifier.py:16-34 | For any program the parser produced, parsing its minified text gives back the same commands, lines aside. |
| FlowResolver.LabelTable | whitespace/Visitor.py:9-15 | The first pass on values, without a contract of its own. FlowResolver.LabelTableCorrect states it. |
| FlowResolver.VisitFlowControl | whitespace/Visitor.py:5-25 | `visit_flow_control` on values, without a contract of its own. FlowResolver.DuplicatesDetected, FlowResolver.UndefinedTargetIsKeyError, FlowResolver.TargetsPointAtLabels and FlowResolver.Idempotent state it. |
| FlowResolver.LabelTableCorrect | whitespace/Visitor.py:9-15 | The first pass succeeds exactly when no label other than -1 repeats, and then maps each label to an index that carries it. Otherwise it raises DuplicateLabels. |
| FlowResolver.TableWhenOk | whitespace/Visitor.py:9-15 | A successful first pass maps each label to a command carrying it, the last one. |
| FlowResolver.FailsOnDuplicate | whitespace/Visitor.py:12-13 | The first pass fails exactly on a repeated label, and the error is DuplicateLabels. |
| FlowResolver.PatchedUpTo | whitespace/Visitor.py:17-25 | After patching the first k commands, those are patched and the rest are unchanged. |
| FlowResolver.FirstMissing | whitespace/Visitor.py:17-25 | The first flow command whose target label is missing from the table, or none when every target is present. |
| FlowResolver.DuplicatesDetected | whitespace/test/test_visitor.py:10-16 | `visit_flow_control` raises DuplicateLabels exactly when a label other than -1 repeats, and then has changed nothing. |
| FlowResolver.UndefinedTargetIsKeyError | whitespace/Visitor.py:17-25 | Without duplicates, resolution fails exactly when some flow command targets a label no command defines, and the error is a KeyError of an undefined label. |
| FlowResolver.TargetsPointAtLabels | whitespace/Visitor.py:17-25 | After a successful resolution every call and jump targets an index in the program whose command carries its target label. |
| FlowResolver.OnlyTargetPcChanges | whitespace/Visitor.py:17-25 | Resolution changes only `target_pc`, and only on flow commands. |
| FlowResolver.Idempotent | whitespace/Visitor.py:5-25 | Resolving a resolved program succeeds and changes nothing. |
| FlowResolver.LabelsOnly | whitespace/Visitor.py:9-15 | The first pass depends only on the commands' labels. |
| FlowResolver.UnlabelledEntry | whitespace/Visitor.py:15 | `labels[-1]` is also recorded: it is the last unlabelled command, so a call to label -1 resolves there. |
| FlowResolver.FirstPass | whitespace/Visitor.py:9-15 | The loop over the array builds exactly the label table or its DuplicateLabels error. |
| FlowResolver.SecondPass | whitespace/Visitor.py:17-25 | The in-place loop patches the array up to the first missing target and reports that index, or patches every command. |
| FlowResolver.ResolveFlow | whitespace/Visitor.py:5-25 | On an array of commands, the outcome and the final array contents are those of VisitFlowControl on the old contents. |
| FlowResolver.LabelTablePrefix | whitespace/Visitor.py:12-13 | Once a prefix has a duplicate, the whole program fails with the same error. |
| FlowResolver.FirstMissingIs | whitespace/Visitor.py:17-25 | The first index with a missing target is the one FirstMissing reports. |
| Runner.Run | whitespace/Runner.py:15-22 | With the PC never stored, `runtime.PC` keeps its initial value throughout a run. |
| Runner.Turn | whitespace/Runner.py:16-22 | The same for one turn of the loop and the rest of the run. |
| Runner.NextPc | whitespace/Runner.py:17-22 | The PC after a command, without a contract of its own: the value returned, or one past it after a return when the call is corrected. Runner.LoopTurns states its use. |
| Runner.LoopTurns | whitespace/Runner.py:15-22 | PC -1 halts the run unchanged. Otherwise the loop fetches `program[PC]` with Python indexing: a PC in -len..len-1 selects the command (negative from the end), and any other raises IndexError. A raising command ends the run with its exception and the state it left. Otherwise the run goes on from the returned index. |
| Runner.EndHaltsRun | whitespace/Runner.py:15-22 | Fetching an End halts the run at once, with the runtime unchanged. |
| Runner.MoreFuelSameEnding | whitespace/Runner.py:15-22 | A run that halted or crashed within a bound ends the same way with any larger bound. |
| Runner.SyncedAdvances | whitespace/Runner.py:16-19 | With the PC stored, a non-flow command moves the loop to the next index. |
| Runner.AsWrittenGoesToOne | whitespace/Runner.py:16-19 | As written, every non-flow command sends the loop to index 1, whatever index it ran at. |
| Runner.HelloCrashesAsWritten | whitespace/Runner.py:15-22 | As written, `push 72; outchar; end` prints "H", re-runs OutChar, and crashes with StackError. |
| Runner.HelloHaltsCorrected | whitespace/Runner.py:15-22 | With the PC stored, the same program prints "H" and halts at index 2. |
| Runner.CallAndReturnLabels | whitespace/Visitor.py:9-15 | The label table of `call 1; end; label 1: return` puts label 1 at index 2. |
| Runner.CallAndReturnResolves | whitespace/Visitor.py:5-25 | Resolving that program sets the call's target to 2. |
| Runner.CallRepeatsForever | whitespace/Commands.py:430-457 | With the PC stored but the return as written, the call is re-run after every return, and the program never ends within any bound. |
| Runner.SyncedRunIgnoresPc | whitespace/Runner.py:15-22 | With the PC stored, whether a run ends does not depend on the runtime PC it starts with. |
| Runner.CallReturnsCorrected | whitespace/test/test_commands.py:400-428 | With both repairs, the call program returns after the call, reaches End, and halts. |
| Runner.Execute | whitespace/Runner.py:6-22 | Executing a program on a fresh runtime over an input text ends as Run from the initial state says. |
| Runner.Loop | whitespace/Runner.py:14-22 | The imperative loop over the runtime objects ends exactly as Run does. |
| Runner.Cycle | whitespace/Runner.py:16-22 | One iteration either ends the run as Run says, or leaves a runtime and PC from which Run continues to the same end. |

## Left out

- I/O:
  - The files are modelled as the input text still to be read and the list of values printed.
  - File objects, buffering and encoding are not modelled.
  - `int()` accepts only ASCII whitespace and digits. Unicode digits and underscores are not modelled.
- Machine.Step does not model the array's word width (`WORD_TYPE`). Numbers are unbounded, so the OverflowError of an out-of-range word is not modelled.
- Runner.Run is bounded by fuel, because the source loop need not terminate. A run that exceeds the bound ends as OutOfFuel.
- Python's recursion limit is not modelled. It would stop `nextToken` on long skips and `Heap.read` on huge addresses.
- The model reallocates the heap array. `Heap.read`/`write` extend it in place, which is the same as far as the runtime can observe, since nothing else holds the array.
- Machine.Runtime.constructor requires the data stack and the call stack to be distinct objects. The source allows aliasing them.
- Parse errors carry a token position instead of the line and index in the message.
- The parser reads an abstract token stream. It imports a `Tokenizer` with a `(text, detect_readable)` constructor that is not part of this model. `Runner.py:7` calls `Parser(source)` without that argument. Runner.Execute takes the parsed and resolved program as its input.
- `__repr__` and `label_repr` are not modelled.
- The `print` of the program at `Runner.py:10` is not modelled.
- `visit_asm_generation` and the compiler are not modelled.
- Machine.ReadCharTakesDigit follows the code: `int()` of the first character, pushed. `test_read_char` expects the character's code, stored in the heap at an address popped from the stack.
- Machine.ReadNumReadsLine follows the code: the number is pushed. `test_read_num` expects it stored in the heap at an address popped from the stack.
- Machine.StackStep, Machine.ArithStep, Machine.IOStep and Machine.HeapStep: their own contracts state only the PC and the index returned. The new contents are stated per command by Machine.PushAppendsOperand through Machine.StoreWritesCell, and the errors by Machine.StackErrorIffUnderflow.
- Commands.Minified: the round-trip results use the corrected, total EncodeNumber. The source's `encodeNumber` never returns for a negative Push, Copy or Slide operand (`whitespace/Commands.py:50-53`), so the source's minifier hangs on such programs (see Findings).
- Lexer.Tokenizer.NextToken: after an exception, index and line are only known not to have decreased. The exact position is not stated, since nothing reads it after the raise.
- Lexer.NextTokenAt models the recursion that never returns on a non-whitespace character in strict mode as a NoProgress error.

## Findings

| source | as written | input that shows it | evidently intended | confidence | as-written member | corrected member |
|---|---|---|---|---|---|---|
| whitespace/Commands.py:45-56 | `while n > 0 or n < 0` with `n = n // 2`, and floor division keeps a negative n negative | `encodeNumber(-1)`: `-1 // 2 == -1`, so the loop never exits | encode the magnitude of a negative number after a Tab sign | not executed | Codec.NegativeNeverTerminates | Minifier.NumberRoundTrip |
| whitespace/Runner.py:15-22 | the loop keeps its PC in a local variable and never assigns `runtime.PC`, which the commands read | `push 72; outchar; end`: OutChar returns `runtime.PC + 1 == 1`, so OutChar runs again on an empty stack and raises StackError | store the PC in `runtime.PC` before each command | not executed | Runner.HelloCrashesAsWritten | Runner.HelloHaltsCorrected |
| whitespace/Commands.py:430-457 | CallSub pushes `runtime.PC` (its own index) and EndSub returns the popped value unchanged | `call 1; end; label 1: return`: the return goes back to the call, which calls again, forever | resume at the command after the call | not executed | Runner.CallRepeatsForever | Runner.CallReturnsCorrected |
| whitespace/tokenizer.py:10-19 | `s == ' ' or '[Space]'` is always truthy | `fromString("\t")` is SPACE, where `test_fromString` expects TAB | classify Space, Tab and Linefeed by the character | not executed | Lexer.FromString | Lexer.CharKind |
