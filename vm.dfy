/** The virtual machine (vm.js): a fetch-execute loop over the instruction array,
    a sparse tape of integer cells, a tick budget and an output buffer.

    The loop has no bound of its own (a program may run forever when no tick limit
    is given), so the model's `Run` takes a fuel argument: one unit per loop
    iteration, reported as `OutOfFuel` when spent. The semantics is the function
    `Exec`; the `VM` class runs the loop on its fields and is proved to end in the
    state `Exec` gives. */
module VirtualMachine {
  import opened Errors
  import opened Codegen

  /** A UTF-16 code unit: what `String.fromCharCode` appends. */
  type CodeUnit = x: int | 0 <= x < 65536

  /** `String.fromCharCode(v)` on an integer: `v` modulo 2^16 (ToUint16). */
  function CharCode(v: int): CodeUnit
  {
    v % 65536
  }

  /** The value of cell `p`: what was last stored there, 0 if never written. */
  function Cell(tape: map<int, int>, p: int): int
  {
    if p in tape then tape[p] else 0
  }

  /** `Memory`: the cells written so far (an object keyed by index) and the pointer. */
  class Memory {
    var memory: map<int, int>
    var memPointer: int

    constructor ()
      ensures memory == map[] && memPointer == 0
    {
      memory := map[];
      memPointer := 0;
    }

    /** `move(steps)`. */
    method Move(steps: int)
      modifies this
      ensures memPointer == old(memPointer) + steps && memory == old(memory)
    {
      memPointer := memPointer + steps;
    }

    /** `update(diff)`. */
    method Update(diff: int)
      modifies this
      ensures memory == old(memory)[memPointer := Cell(old(memory), memPointer) + diff]
      ensures memPointer == old(memPointer)
    {
      memory := memory[memPointer := Get() + diff];
    }

    /** `get()`: the current cell, 0 when it was never written. */
    function Get(): (v: int)
      reads this
      ensures memPointer !in memory ==> v == 0
      ensures memPointer in memory ==> v == memory[memPointer]
    {
      Cell(memory, memPointer)
    }
  }

  /** `hasMoreTicks()` on a counter holding `t`: its answer and the new counter.
      -1 means no limit; any other value but 0 is decremented (`ticks-- > 0`). */
  function TickStep(t: int): (bool, int)
  {
    if t == -1 then (true, t)
    else if t == 0 then (false, t)
    else (t > 0, t - 1)
  }

  /** `TicksLimit`. */
  class TicksLimit {
    var ticks: int

    constructor (ticks: int)
      ensures this.ticks == ticks
    {
      this.ticks := ticks;
    }

    /** `hasMoreTicks()`. */
    method HasMoreTicks() returns (b: bool)
      modifies this
      ensures (b, ticks) == TickStep(old(ticks))
    {
      if ticks == -1 {
        return true;
      } else if ticks == 0 {
        return false;
      } else {
        b := ticks > 0;
        ticks := ticks - 1;
      }
    }
  }

  /** The answers of `k` successive `hasMoreTicks()` calls on a counter holding `t`. */
  function Replies(t: int, k: nat): seq<bool>
    decreases k
  {
    if k == 0 then [] else [TickStep(t).0] + Replies(TickStep(t).1, k - 1)
  }

  /** The state of a VM: `pc`, the memory cells and pointer, the tick counter and
      the output buffer (as code units). */
  datatype Machine = Machine(pc: nat, tape: map<int, int>, pointer: int, ticks: int, output: seq<CodeUnit>)

  /** How `run` ends: it returns because `pc` left the code (`Finished`) or because
      the ticks ran out (`OutOfTicks`), or it throws; `OutOfFuel` is the model
      stopping an unfinished run. */
  datatype Status = Finished | OutOfTicks | Failed(error: Error) | OutOfFuel

  /** The final state, how the run ended and how many instructions it dispatched. */
  datatype Outcome = Outcome(final: Machine, status: Status, steps: nat)

  /** One loop body: fetch the instruction at `pc`, increment `pc`, execute. An
      `ifjump` that was never patched (its `index` is `undefined`) sends `pc` out
      of the code. `READ` throws, leaving the incremented `pc`. */
  function Dispatch(code: seq<Instr>, m: Machine): (Machine, Option<Error>)
    requires m.pc < |code|
  {
    var n := m.(pc := m.pc + 1);
    match code[m.pc]
    case Move(v) => (n.(pointer := n.pointer + v), None)
    case Add(v) => (n.(tape := n.tape[n.pointer := Cell(n.tape, n.pointer) + v]), None)
    case Print => (n.(output := n.output + [CharCode(Cell(n.tape, n.pointer))]), None)
    case Read => (n, Some(ReadNotSupported))
    case IfJump(exit) =>
      (if Cell(n.tape, n.pointer) == 0 then n.(pc := if exit.Some? then exit.value else |code|) else n, None)
    case Jump(start) => (n.(pc := start), None)
  }

  /** `run()` from state `m`, for at most `fuel` loop iterations. The loop test
      checks `pc` first and consumes a tick only when `pc` is inside the code. */
  function Exec(code: seq<Instr>, m: Machine, fuel: nat): Outcome
    decreases fuel
  {
    if fuel == 0 then Outcome(m, OutOfFuel, 0)
    else if m.pc >= |code| then Outcome(m, Finished, 0)
    else
      var (more, t) := TickStep(m.ticks);
      var m1 := m.(ticks := t);
      if !more then Outcome(m1, OutOfTicks, 0)
      else
        var (m2, err) := Dispatch(code, m1);
        if err.Some? then Outcome(m2, Failed(err.value), 1)
        else
          var o := Exec(code, m2, fuel - 1);
          o.(steps := o.steps + 1)
  }

  /** `VM`. It shares the program's instruction array. */
  class VM {
    const bytecode: InstrArray
    const memory: Memory
    const ticks: TicksLimit
    var pc: nat
    var outputBuffer: seq<CodeUnit>

    /** `new VM(compiled_program, ticks_limit)`; an omitted limit (`None`) is -1. */
    constructor (compiledProgram: CompiledProgram, ticksLimit: Option<int>)
      ensures bytecode == compiledProgram.byteCode && fresh(memory) && fresh(ticks)
      ensures State() == Machine(0, map[], 0, if ticksLimit.None? then -1 else ticksLimit.value, [])
    {
      bytecode := compiledProgram.ByteCode();
      memory := new Memory();
      pc := 0;
      if ticksLimit.None? {
        ticks := new TicksLimit(-1);
      } else {
        ticks := new TicksLimit(ticksLimit.value);
      }
      outputBuffer := [];
    }

    function State(): Machine
      reads this, memory, ticks
    {
      Machine(pc, memory.memory, memory.memPointer, ticks.ticks, outputBuffer)
    }

    /** `run()`, for at most `fuel` iterations of its loop. */
    method Run(fuel: nat) returns (status: Status)
      modifies this, memory, ticks
      ensures var o := Exec(bytecode.ops, old(State()), fuel); State() == o.final && status == o.status
    {
      var n := fuel;
      ghost var done := 0;
      while n > 0
        invariant var o := Exec(bytecode.ops, State(), n);
          Exec(bytecode.ops, old(State()), fuel) == o.(steps := o.steps + done)
        decreases n
      {
        if pc >= |bytecode.ops| {
          return Finished;
        }
        ghost var before := State();
        var more := ticks.HasMoreTicks();
        if !more {
          return OutOfTicks;
        }
        assert State() == before.(ticks := TickStep(before.ticks).1);
        var err := Execute();
        if err.Some? {
          return Failed(err.value);
        }
        n := n - 1;
        done := done + 1;
      }
      return OutOfFuel;
    }

    /** The body of `run()`'s loop once a tick was granted: fetch, increment
        `pc`, execute; `READ` throws. */
    method Execute() returns (err: Option<Error>)
      requires pc < |bytecode.ops|
      modifies this, memory
      ensures (State(), err) == Dispatch(bytecode.ops, old(State()))
    {
      var op := bytecode.ops[pc];
      pc := pc + 1;
      err := None;
      match op {
        case Move(v) =>
          memory.Move(v);
        case Add(v) =>
          memory.Update(v);
        case Print =>
          outputBuffer := outputBuffer + [CharCode(memory.Get())];
        case Read =>
          err := Some(ReadNotSupported);
        case IfJump(exit) =>
          if memory.Get() == 0 {
            pc := if exit.Some? then exit.value else |bytecode.ops|;
          }
        case Jump(start) =>
          pc := start;
      }
    }
  }
}
