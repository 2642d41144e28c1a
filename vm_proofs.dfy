/** What a run of the virtual machine does with its tick budget, its output and
    its program counter. */
module VirtualMachineProofs {
  import opened Errors
  import opened Codegen
  import opened CodegenProofs
  import opened VirtualMachine

  /** `TicksLimit(-1)` always answers yes; `TicksLimit(n)` with `n >= 0` answers
      yes exactly `n` times and then no forever; any other negative limit always
      answers no. */
  lemma {:induction false} TicksReplies(t: int, k: nat)
    decreases k
    ensures Replies(t, k) == seq(k, j => t == -1 || j < t)
  {
    if k > 0 {
      TicksReplies(TickStep(t).1, k - 1);
    }
  }

  /** A never-written cell reads 0, at any index, negative ones included, whatever
      other cells were written. */
  lemma CellDefault(tape: map<int, int>, p: int)
    ensures p !in tape ==> Cell(tape, p) == 0
    ensures Cell(map[], p) == 0
  {
  }

  /** `update(d)` changes the current cell by `d` and no other cell. */
  lemma CellAfterUpdate(tape: map<int, int>, p: int, d: int, q: int)
    ensures Cell(tape[p := Cell(tape, p) + d], q) == if q == p then Cell(tape, q) + d else Cell(tape, q)
  {
  }

  /** Dispatching an instruction leaves the tick counter alone and only appends
      to the output, at most one code unit, which is the current cell modulo 2^16.
      Only `READ` throws, and it keeps the memory and output as they were. */
  lemma DispatchFrame(code: seq<Instr>, m: Machine)
    requires m.pc < |code|
    ensures Dispatch(code, m).0.ticks == m.ticks
    ensures var out := Dispatch(code, m).0.output;
      if code[m.pc] == Print then out == m.output + [Cell(m.tape, m.pointer) % 65536] else out == m.output
    ensures Dispatch(code, m).1.Some? <==> code[m.pc] == Read
    ensures Dispatch(code, m).1.Some? ==> Dispatch(code, m) == (m.(pc := m.pc + 1), Some(ReadNotSupported))
  {
  }

  /** Where `pc` goes: `ifjump` to its target exactly when the current cell is 0,
      `jump` always to its target, every other instruction to the next one. */
  lemma DispatchPc(code: seq<Instr>, m: Machine)
    requires m.pc < |code|
    ensures var pc := Dispatch(code, m).0.pc;
      match code[m.pc]
      case IfJump(exit) => exit.Some? ==> pc == if Cell(m.tape, m.pointer) == 0 then exit.value else m.pc + 1
      case Jump(start) => pc == start
      case _ => pc == m.pc + 1
  {
  }

  /** How many ticks the counter holds does not change what an instruction does. */
  lemma DispatchIgnoresTicks(code: seq<Instr>, m: Machine, t: int)
    requires m.pc < |code|
    ensures Dispatch(code, m.(ticks := t)) == (Dispatch(code, m).0.(ticks := t), Dispatch(code, m).1)
  {
  }

  /** A run with a limit of `N >= 0` ticks dispatches at most `N` instructions,
      the counter ends at `N` minus the number dispatched, and a run stopped by
      the limit has dispatched exactly `N`. */
  lemma {:induction false} RunTickBudget(code: seq<Instr>, m: Machine, fuel: nat)
    requires m.ticks >= 0
    decreases fuel
    ensures var o := Exec(code, m, fuel);
      && o.steps <= m.ticks
      && o.final.ticks == m.ticks - o.steps
      && (o.status == OutOfTicks ==> o.steps == m.ticks)
  {
    if fuel > 0 && m.pc < |code| && m.ticks > 0 {
      var m1 := m.(ticks := m.ticks - 1);
      DispatchFrame(code, m1);
      if Dispatch(code, m1).1.None? {
        RunTickBudget(code, Dispatch(code, m1).0, fuel - 1);
      }
    }
  }

  /** Without a limit a run never stops for lack of ticks and the counter stays -1. */
  lemma {:induction false} RunUnbounded(code: seq<Instr>, m: Machine, fuel: nat)
    requires m.ticks == -1
    decreases fuel
    ensures Exec(code, m, fuel).status != OutOfTicks && Exec(code, m, fuel).final.ticks == -1
  {
    if fuel > 0 && m.pc < |code| {
      DispatchFrame(code, m);
      if Dispatch(code, m).1.None? {
        RunUnbounded(code, Dispatch(code, m).0, fuel - 1);
      }
    }
  }

  /** A limit below -1 lets nothing run: no instruction is dispatched and the
      memory and output stay as they were. */
  lemma RunBelowUnbounded(code: seq<Instr>, m: Machine, fuel: nat)
    requires m.ticks < -1
    ensures var o := Exec(code, m, fuel);
      && o.steps == 0 && o.final.tape == m.tape && o.final.pointer == m.pointer && o.final.output == m.output
      && o.final.pc == m.pc && o.status != Failed(ReadNotSupported)
  {
  }

  /** The output buffer only grows. */
  lemma {:induction false} RunOutputGrows(code: seq<Instr>, m: Machine, fuel: nat)
    decreases fuel
    ensures m.output <= Exec(code, m, fuel).final.output
  {
    if fuel > 0 && m.pc < |code| && TickStep(m.ticks).0 {
      var m1 := m.(ticks := TickStep(m.ticks).1);
      DispatchFrame(code, m1);
      if Dispatch(code, m1).1.None? {
        RunOutputGrows(code, Dispatch(code, m1).0, fuel - 1);
      }
    }
  }

  /** `run` returns normally without running out of ticks only once `pc` is at
      or past the end of the code; it throws only for a `READ`, with `pc` just past it. */
  lemma {:induction false} RunEnds(code: seq<Instr>, m: Machine, fuel: nat)
    decreases fuel
    ensures var o := Exec(code, m, fuel);
      && (o.status == Finished ==> o.final.pc >= |code|)
      && (o.status.Failed? ==> && o.status.error == ReadNotSupported && o.steps >= 1
                               && 1 <= o.final.pc <= |code| && code[o.final.pc - 1] == Read)
  {
    if fuel > 0 && m.pc < |code| && TickStep(m.ticks).0 {
      var m1 := m.(ticks := TickStep(m.ticks).1);
      DispatchFrame(code, m1);
      if Dispatch(code, m1).1.None? {
        RunEnds(code, Dispatch(code, m1).0, fuel - 1);
      }
    }
  }

  /** Fuel is only a bound: a run that ended within `fuel` iterations ends the
      same way with any more fuel. */
  lemma {:induction false} RunFuelMonotone(code: seq<Instr>, m: Machine, fuel: nat, more: nat)
    requires Exec(code, m, fuel).status != OutOfFuel && fuel <= more
    decreases fuel
    ensures Exec(code, m, more) == Exec(code, m, fuel)
  {
    if m.pc < |code| && TickStep(m.ticks).0 {
      var m1 := m.(ticks := TickStep(m.ticks).1);
      if Dispatch(code, m1).1.None? {
        RunFuelMonotone(code, Dispatch(code, m1).0, fuel - 1, more - 1);
      }
    }
  }

  /** A tick limit only cuts a run short: the limited run's output is a prefix of
      the unlimited one's, it dispatches no more instructions, and unless the
      limit stopped it, it ends exactly as the unlimited run does. */
  lemma {:induction false} LimitOnlyTruncates(code: seq<Instr>, m: Machine, fuel: nat)
    requires m.ticks >= 0
    decreases fuel
    ensures var b := Exec(code, m, fuel); var u := Exec(code, m.(ticks := -1), fuel);
      && b.final.output <= u.final.output
      && b.steps <= u.steps
      && (b.status != OutOfTicks ==> b.status == u.status && b.steps == u.steps && b.final.(ticks := -1) == u.final)
  {
    var u0 := m.(ticks := -1);
    if fuel > 0 && m.pc < |code| {
      if m.ticks == 0 {
        RunOutputGrows(code, u0, fuel);
      } else {
        var m1 := m.(ticks := m.ticks - 1);
        DispatchIgnoresTicks(code, m1, -1);
        assert m1.(ticks := -1) == u0;
        var (m2, err) := Dispatch(code, m1);
        if err.None? {
          assert Dispatch(code, u0) == (m2.(ticks := -1), None);
          DispatchFrame(code, m1);
          LimitOnlyTruncates(code, m2, fuel - 1);
        }
      }
    }
  }

  /** On compiled code `pc` never leaves the code by more than one past its end:
      every jump of a paired program lands inside it or just past it. */
  lemma {:induction false} PairedRunStaysInRange(code: seq<Instr>, m: Machine, fuel: nat)
    requires Paired(code, 0) && m.pc <= |code|
    decreases fuel
    ensures Exec(code, m, fuel).final.pc <= |code|
  {
    if fuel > 0 && m.pc < |code| && TickStep(m.ticks).0 {
      var m1 := m.(ticks := TickStep(m.ticks).1);
      PairedTargets(code);
      assert m1.pc < |code|;
      var m2 := Dispatch(code, m1).0;
      assert m2.pc <= |code|;
      if Dispatch(code, m1).1.None? {
        PairedRunStaysInRange(code, m2, fuel - 1);
      }
    }
  }
}
