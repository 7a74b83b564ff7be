/** The interpreter loop of whitespace/Runner.py:12-22: a fresh runtime, then
    `statement = program[PC]; PC = statement.execute(runtime)` until PC is -1.

    As written the loop keeps its own PC and never stores it in
    `runtime.PC`, which stays 0; every command that returns `runtime.PC + 1`
    therefore sends control to index 1, and CallSub pushes 0.  And CallSub
    pushes the index of the call itself while EndSub returns the popped value
    unchanged, so even with the PC stored a return re-executes the call.
    Run takes the two corrections as switches: AsWritten is the loop of the
    source, Corrected the loop with both repairs.  The loop need not
    terminate, so Run takes a bound on the number of commands executed. */
module Runner {
  import opened Base
  import opened Commands
  import opened Memory
  import opened Machine
  import opened FlowResolver

  /** How a run ends: `PC == -1`, an exception, or the bound reached. */
  datatype Ending =
    | Halted(state: MachineState)
    | Crashed(state: MachineState, error: Error)
    | OutOfFuel(state: MachineState, pc: int)

  /** Which repairs the loop applies: store the loop's PC in `runtime.PC`
      before each command, and resume after the call when a subroutine ends. */
  datatype Fixes = Fixes(syncPc: bool, resumeAfterCall: bool)

  const AsWritten: Fixes := Fixes(false, false)
  const SyncedOnly: Fixes := Fixes(true, false)
  const Corrected: Fixes := Fixes(true, true)

  /** The PC the loop moves to after command c returned ret. */
  function NextPc(c: Command, ret: int, fixes: Fixes): int
  {
    if fixes.resumeAfterCall && c.op == EndSub then ret + 1 else ret
  }

  /** At most fuel iterations of the loop, from runtime state s and loop PC
      pc: `program[PC]` is Python indexing, so a PC past the end raises
      IndexError and a negative one other than -1 counts from the end. */
  function Run(prog: seq<Command>, s: MachineState, pc: int, fuel: nat, fixes: Fixes): (r: Ending)
    requires |s.heap| > 0
    ensures !fixes.syncPc ==> r.state.pc == s.pc
    decreases fuel, 1
  {
    if pc == -1 then Halted(s)
    else if fuel == 0 then OutOfFuel(s, pc)
    else Turn(prog, s, pc, fuel, fixes)
  }

  /** One turn of the loop and the rest of the run after it. */
  function Turn(prog: seq<Command>, s: MachineState, pc: int, fuel: nat, fixes: Fixes): (r: Ending)
    requires |s.heap| > 0 && fuel > 0
    ensures !fixes.syncPc ==> r.state.pc == s.pc
    decreases fuel, 0
  {
    match PyIndex(|prog|, pc)
    case None => Crashed(s, IndexError)
    case Some(i) =>
      var before := if fixes.syncPc then s.(pc := pc) else s;
      var step := Step(prog[i], before);
      match step.ret
      case Err(e) => Crashed(step.state, e)
      case Ok(ret) => Run(prog, step.state, NextPc(prog[i], ret, fixes), fuel - 1, fixes)
  }

  /** The loop of whitespace/Runner.py:15-22, one turn at a time: it stops
      when PC is -1; otherwise it fetches `program[PC]` with Python indexing
      (a negative PC counts from the end, anything outside raises
      IndexError), executes it, and either stops on the exception or goes on
      from the index the command returned. */
  lemma LoopTurns(prog: seq<Command>, s: MachineState, pc: int, fuel: nat, fixes: Fixes)
    requires |s.heap| > 0
    ensures pc == -1 ==> Run(prog, s, pc, fuel, fixes) == Halted(s)
    ensures pc != -1 && fuel == 0 ==> Run(prog, s, pc, fuel, fixes) == OutOfFuel(s, pc)
    ensures pc != -1 && fuel > 0 && (pc >= |prog| || pc < -|prog|) ==>
              Run(prog, s, pc, fuel, fixes) == Crashed(s, IndexError)
    ensures pc != -1 && fuel > 0 && -|prog| <= pc < |prog| ==>
              var c := prog[if pc >= 0 then pc else |prog| + pc];
              var step := Step(c, if fixes.syncPc then s.(pc := pc) else s);
              Run(prog, s, pc, fuel, fixes)
              == if step.ret.Err? then Crashed(step.state, step.ret.error)
                 else Run(prog, step.state, NextPc(c, step.ret.value, fixes), fuel - 1, fixes)
  {
  }

  /** An End command stops the run where it stands, changing nothing; a
      command that returns any other index does not stop it. */
  lemma EndHaltsRun(prog: seq<Command>, s: MachineState, pc: int, fuel: nat, fixes: Fixes)
    requires |s.heap| > 0 && -|prog| <= pc < |prog| && pc != -1 && fuel > 0
    requires prog[if pc >= 0 then pc else |prog| + pc].op == End
    ensures Run(prog, s, pc, fuel, fixes) == Halted(if fixes.syncPc then s.(pc := pc) else s)
  {
    var c := prog[if pc >= 0 then pc else |prog| + pc];
    var before := if fixes.syncPc then s.(pc := pc) else s;
    EndStops(c, before);
    LoopTurns(prog, s, pc, fuel, fixes);
    assert NextPc(c, -1, fixes) == -1;
  }

  /** A run that ended within some bound ends the same way with any larger
      bound: the bound only cuts runs short. */
  lemma {:induction false} MoreFuelSameEnding(prog: seq<Command>, s: MachineState, pc: int, fuel: nat, extra: nat, fixes: Fixes)
    requires |s.heap| > 0
    requires !Run(prog, s, pc, fuel, fixes).OutOfFuel?
    ensures Run(prog, s, pc, fuel + extra, fixes) == Run(prog, s, pc, fuel, fixes)
    decreases fuel
  {
    if pc != -1 && fuel > 0 {
      match PyIndex(|prog|, pc)
      case None =>
      case Some(i) =>
        var before := if fixes.syncPc then s.(pc := pc) else s;
        var step := Step(prog[i], before);
        match step.ret
        case Err(e) =>
        case Ok(ret) =>
          MoreFuelSameEnding(prog, step.state, NextPc(prog[i], ret, fixes), fuel - 1, extra, fixes);
    }
  }

  /** With the PC stored, a command that neither jumps nor ends moves the
      loop to the next index. */
  lemma SyncedAdvances(prog: seq<Command>, s: MachineState, pc: nat, fuel: nat, fixes: Fixes)
    requires |s.heap| > 0 && fixes.syncPc && pc < |prog|
    requires !prog[pc].op.IsFlow() && prog[pc].op != End && prog[pc].op != EndSub
    requires Step(prog[pc], s.(pc := pc)).ret.Ok?
    ensures Run(prog, s, pc, fuel + 1, fixes) == Run(prog, Step(prog[pc], s.(pc := pc)).state, pc + 1, fuel, fixes)
  {
    var step := Step(prog[pc], s.(pc := pc));
    assert NextPc(prog[pc], step.ret.value, fixes) == pc + 1;
  }

  /** As written, a command that neither jumps nor ends moves the loop to
      index 1 wherever it stands, since `runtime.PC` stays 0. */
  lemma AsWrittenGoesToOne(prog: seq<Command>, s: MachineState, pc: nat, fuel: nat)
    requires |s.heap| > 0 && s.pc == 0 && pc < |prog|
    requires !prog[pc].op.IsFlow() && prog[pc].op != End && prog[pc].op != EndSub
    requires Step(prog[pc], s).ret.Ok?
    ensures Run(prog, s, pc, fuel + 1, AsWritten) == Run(prog, Step(prog[pc], s).state, 1, fuel, AsWritten)
  {
    var step := Step(prog[pc], s);
    assert NextPc(prog[pc], step.ret.value, AsWritten) == 1;
  }

  /** `push 72; outchar; end`: print "H" and stop. */
  const Hello: seq<Command> := [
    WithOperand(Push, 1, 72, NoLabel),
    Plain(OutChar, 2, NoLabel),
    Plain(End, 3, NoLabel)]

  /** As written the loop runs OutChar a second time on an empty stack:
      "H" is printed and StackError raised. */
  lemma HelloCrashesAsWritten(fuel: nat)
    requires fuel >= 3
    ensures Run(Hello, InitialState(""), 0, fuel, AsWritten)
            == Crashed(MachineState([], [], FreshCells, 0, "", [Char(72)]), StackError)
  {
    var s0 := InitialState("");
    var s1 := s0.(stack := [72]);
    var s2 := s0.(output := [Char(72)]);
    assert Step(Hello[0], s0) == StepResult(s1, Ok(1));
    assert Run(Hello, s0, 0, fuel, AsWritten) == Run(Hello, s1, 1, fuel - 1, AsWritten);
    assert Step(Hello[1], s1) == StepResult(s2, Ok(1));
    assert Run(Hello, s1, 1, fuel - 1, AsWritten) == Run(Hello, s2, 1, fuel - 2, AsWritten);
    assert Step(Hello[1], s2) == StepResult(s2, Err(StackError));
  }

  /** Corrected, the same program prints "H" and halts after three commands. */
  lemma HelloHaltsCorrected(fuel: nat)
    requires fuel >= 3
    ensures Run(Hello, InitialState(""), 0, fuel, Corrected)
            == Halted(MachineState([], [], FreshCells, 2, "", [Char(72)]))
  {
    var s0 := InitialState("");
    var s1 := s0.(stack := [72]);
    var s2 := s0.(output := [Char(72)], pc := 1);
    assert Step(Hello[0], s0) == StepResult(s1, Ok(1));
    assert Run(Hello, s0, 0, fuel, Corrected) == Run(Hello, s1, 1, fuel - 1, Corrected);
    assert Step(Hello[1], s1.(pc := 1)) == StepResult(s2, Ok(2));
    assert Run(Hello, s1, 1, fuel - 1, Corrected) == Run(Hello, s2, 2, fuel - 2, Corrected);
    assert Step(Hello[2], s2.(pc := 2)) == StepResult(s2.(pc := 2), Ok(-1));
    assert Run(Hello, s2, 2, fuel - 2, Corrected) == Run(Hello, s2.(pc := 2), -1, fuel - 3, Corrected);
  }

  /** `call 1; end; label 1: return`, as the parser produces it. */
  const CallAndReturn: seq<Command> := [
    Flow(CallSub, 1, NoLabel, 1),
    Plain(End, 2, NoLabel),
    Plain(EndSub, 3, 1)]

  /** The same program after `visit_flow_control`: the call targets index 2. */
  const CallAndReturnResolved: seq<Command> := [
    Flow(CallSub, 1, NoLabel, 1).(targetPc := 2),
    Plain(End, 2, NoLabel),
    Plain(EndSub, 3, 1)]

  /** The first pass over that program: label 1 at index 2 (and the
      unlabelled entry of the last unlabelled command). */
  lemma CallAndReturnLabels()
    ensures LabelTable(CallAndReturn) == Ok(map[NoLabel := 1, 1 := 2])
  {
    var p := CallAndReturn;
    assert p[..1][..0] == [];
    assert LabelTable(p[..1]) == Ok(map[NoLabel := 0]);
    assert p[..2][..1] == p[..1] && p[..2][1] == p[1];
    assert map[NoLabel := 0][NoLabel := 1] == map[NoLabel := 1];
    assert LabelTable(p[..2]) == Ok(map[NoLabel := 1]);
    assert p[..3][..2] == p[..2] && p[..3] == p;
  }

  lemma CallAndReturnResolves()
    ensures VisitFlowControl(CallAndReturn) == (Pass, CallAndReturnResolved)
  {
    CallAndReturnLabels();
    assert PatchedUpTo(CallAndReturn, map[NoLabel := 1, 1 := 2], 3) == CallAndReturnResolved;
  }

  /** With the PC stored but returns as written, the return goes back to the
      call, which calls again: the run never ends, whatever the bound. */
  lemma {:induction false} CallRepeatsForever(fuel: nat)
    ensures Run(CallAndReturnResolved, InitialState(""), 0, fuel, SyncedOnly).OutOfFuel?
    decreases fuel
  {
    var p := CallAndReturnResolved;
    var s0 := InitialState("");
    var s1 := s0.(callstack := [0]);
    if fuel >= 2 {
      assert Step(p[0], s0) == StepResult(s1, Ok(2));
      assert Step(p[2], s1.(pc := 2)) == StepResult(s0.(pc := 2), Ok(0));
      assert Run(p, s0, 0, fuel, SyncedOnly) == Run(p, s1, 2, fuel - 1, SyncedOnly);
      assert Run(p, s1, 2, fuel - 1, SyncedOnly) == Run(p, s0.(pc := 2), 0, fuel - 2, SyncedOnly);
      SyncedRunIgnoresPc(p, s0, 2, 0, fuel - 2);
      CallRepeatsForever(fuel - 2);
    } else if fuel == 1 {
      assert Step(p[0], s0) == StepResult(s1, Ok(2));
    }
  }

  /** With the PC stored, the PC the runtime held before is irrelevant. */
  lemma SyncedRunIgnoresPc(prog: seq<Command>, s: MachineState, old_pc: int, pc: int, fuel: nat)
    requires |s.heap| > 0
    ensures Run(prog, s.(pc := old_pc), pc, fuel, SyncedOnly).OutOfFuel?
            == Run(prog, s, pc, fuel, SyncedOnly).OutOfFuel?
  {
    if pc != -1 && fuel > 0 {
      assert s.(pc := old_pc).(pc := pc) == s.(pc := pc);
    }
  }

  /** Corrected, the return resumes after the call and the program halts. */
  lemma CallReturnsCorrected(fuel: nat)
    requires fuel >= 3
    ensures Run(CallAndReturnResolved, InitialState(""), 0, fuel, Corrected)
            == Halted(InitialState("").(pc := 1))
  {
    var p := CallAndReturnResolved;
    var s0 := InitialState("");
    var s1 := s0.(callstack := [0]);
    assert Step(p[0], s0) == StepResult(s1, Ok(2));
    assert Run(p, s0, 0, fuel, Corrected) == Run(p, s1, 2, fuel - 1, Corrected);
    assert Step(p[2], s1.(pc := 2)) == StepResult(s0.(pc := 2), Ok(0));
    assert Run(p, s1, 2, fuel - 1, Corrected) == Run(p, s0.(pc := 2), 1, fuel - 2, Corrected);
    assert Step(p[1], s0.(pc := 1)) == StepResult(s0.(pc := 1), Ok(-1));
    assert Run(p, s0.(pc := 2), 1, fuel - 2, Corrected) == Run(p, s0.(pc := 1), -1, fuel - 3, Corrected);
  }

  /** Lines 12-22 of whitespace/Runner.py: `Runtime()` reading the text,
      then the loop, for at most fuel commands. */
  method Execute(program: seq<Command>, text: string, fuel: nat, fixes: Fixes) returns (r: Ending)
    ensures r == Run(program, InitialState(text), 0, fuel, fixes)
  {
    var runtime := new Runtime(null, null, null, 0, text);
    r := Loop(runtime, program, fuel, fixes);
  }

  /** The loop of whitespace/Runner.py:15-22 on a given runtime, from index 0. */
  method Loop(runtime: Runtime, program: seq<Command>, fuel: nat, fixes: Fixes) returns (r: Ending)
    requires runtime.Valid()
    modifies runtime, runtime.stack, runtime.callstack, runtime.heap, runtime.heap.arr
    ensures r == Run(program, old(runtime.State()), 0, fuel, fixes)
  {
    var PC := 0;
    var left: nat := fuel;
    while PC != -1 && left > 0
      invariant runtime.Valid()
      invariant runtime.stack == old(runtime.stack) && runtime.callstack == old(runtime.callstack)
      invariant runtime.heap == old(runtime.heap)
      invariant fresh(runtime.heap.arr) || runtime.heap.arr == old(runtime.heap.arr)
      invariant Run(program, old(runtime.State()), 0, fuel, fixes) == Run(program, runtime.State(), PC, left, fixes)
      decreases left
    {
      var stop;
      stop, PC := Cycle(runtime, program, PC, left, fixes);
      if stop.Some? {
        return stop.value;
      }
      left := left - 1;
    }
    if PC == -1 {
      r := Halted(runtime.State());
    } else {
      r := OutOfFuel(runtime.State(), PC);
    }
  }

  /** One turn of the loop of whitespace/Runner.py:16-22: fetch the command
      at PC (a negative PC counts from the end, as a Python index does),
      execute it and compute the next PC; stop is the ending when the turn
      raised. */
  method Cycle(runtime: Runtime, program: seq<Command>, PC: int, left: nat, fixes: Fixes) returns (stop: Option<Ending>, next: int)
    requires runtime.Valid() && PC != -1 && left > 0
    modifies runtime, runtime.stack, runtime.callstack, runtime.heap, runtime.heap.arr
    ensures runtime.Valid()
    ensures runtime.stack == old(runtime.stack) && runtime.callstack == old(runtime.callstack)
    ensures runtime.heap == old(runtime.heap)
    ensures fresh(runtime.heap.arr) || runtime.heap.arr == old(runtime.heap.arr)
    ensures stop.Some? ==> stop.value == Run(program, old(runtime.State()), PC, left, fixes)
    ensures stop.None? ==> Run(program, old(runtime.State()), PC, left, fixes) == Run(program, runtime.State(), next, left - 1, fixes)
  {
    var index := PyIndex(|program|, PC);
    if index.None? {
      return Some(Crashed(runtime.State(), IndexError)), PC;
    }
    var statement := program[index.value];
    if fixes.syncPc {
      runtime.PC := PC;
    }
    var ret := runtime.Execute(statement);
    if ret.Err? {
      return Some(Crashed(runtime.State(), ret.error)), PC;
    }
    stop, next := None, NextPc(statement, ret.value, fixes);
  }
}
