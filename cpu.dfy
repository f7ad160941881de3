/**
 * The `CPU` class of archi.py: registers and flags as fields, the 1024-cell
 * memory as an array written in place, one method per opcode handler, and
 * the `run` loop (bounded by fuel, since JMP and JZ can loop forever).
 * Every method is proved to do what the matching function of CpuSpec does.
 */
module CpuEngine {
  import opened Builtins
  import Spec = CpuSpec

  class Cpu {
    var A: int
    var B: int
    var PC: int
    const memory: array<int>
    var zeroFlag: bool
    var carryFlag: bool
    var running: bool

    /** The machine state as a value. */
    ghost function State(): Spec.State
      reads this, memory
    {
      Spec.State(A, B, PC, memory[..], zeroFlag, carryFlag, running)
    }

    /** The current state, as completed normally (`ok`) or interrupted by IndexError. */
    ghost function After(ok: bool): Spec.Effect
      reads this, memory
    {
      if ok then Spec.Next(State()) else Spec.IndexError(State())
    }

    /** `CPU()`: registers and memory zeroed, flags false, not running. */
    constructor ()
      ensures State() == Spec.Fresh() && memory.Length == Spec.MemorySize
      ensures fresh(memory)
    {
      A, B, PC := 0, 0, 0;
      memory := new int[Spec.MemorySize](_ => 0);
      zeroFlag, carryFlag := false, false;
      running := false;
      new;
      assert memory[..] == seq(Spec.MemorySize, _ => 0);
    }

    /** `load_program`: copies the program into memory from cell 0. */
    method LoadProgram(program: seq<int>) returns (ok: bool)
      modifies memory
      ensures After(ok) == Spec.LoadProgram(old(State()), program)
    {
      var i := 0;
      while i < |program|
        invariant 0 <= i <= |program| && i <= memory.Length
        invariant forall k :: 0 <= k < i ==> memory[k] == program[k]
        invariant forall k :: i <= k < memory.Length ==> memory[k] == old(memory[k])
      {
        if i >= memory.Length {
          // `self.memory[i] = value` raises IndexError
          assert memory[..] == program[..memory.Length];
          return false;
        }
        memory[i] := program[i];
        i := i + 1;
      }
      assert memory[..] == program + old(memory[..])[|program|..];
      return true;
    }

    /** The index Python reads for `self.memory[address]`, if it can. */
    function Cell(address: int): Option<nat>
      reads this
    {
      PyIndex(address, memory.Length)
    }

    /** `fetch`: reads the byte at PC and advances PC. */
    method Fetch() returns (instruction: int, ok: bool)
      modifies this
      ensures ok == Spec.Fetched(old(State())).Some?
      ensures ok ==> instruction == Spec.Fetched(old(State())).value && State() == old(State()).(pc := old(PC) + 1)
      ensures !ok ==> State() == old(State())
    {
      match Cell(PC)
      case None =>
        return 0, false;
      case Some(k) =>
        instruction := memory[k];
        PC := PC + 1;
        return instruction, true;
    }

    /** `nop`. */
    method Nop()
      ensures State() == Spec.Nop(old(State()))
    {
    }

    /** `lda`. */
    method Lda() returns (ok: bool)
      modifies this
      ensures After(ok) == Spec.Lda(old(State()))
    {
      match Cell(PC)
      case None =>
        return false;
      case Some(k) =>
        var value := memory[k];
        PC := PC + 1;
        A := value;
        zeroFlag := A == 0;
        return true;
    }

    /** `add`. */
    method Add() returns (ok: bool)
      modifies this
      ensures After(ok) == Spec.Add(old(State()))
    {
      match Cell(PC)
      case None =>
        return false;
      case Some(k) =>
        var value := memory[k];
        PC := PC + 1;
        assert Spec.Operand(old(State())) == Some(value);
        var result := A + value;
        carryFlag := result > 255;
        A := LowByte(result);
        zeroFlag := A == 0;
        assert State() == old(State()).(pc := PC, carry := carryFlag, a := A, zero := zeroFlag);
        return true;
    }

    /** `sub`. */
    method Sub() returns (ok: bool)
      modifies this
      ensures After(ok) == Spec.Sub(old(State()))
    {
      match Cell(PC)
      case None =>
        return false;
      case Some(k) =>
        var value := memory[k];
        PC := PC + 1;
        assert Spec.Operand(old(State())) == Some(value);
        var result := A - value;
        carryFlag := result < 0;
        A := LowByte(result);
        zeroFlag := A == 0;
        assert State() == old(State()).(pc := PC, carry := carryFlag, a := A, zero := zeroFlag);
        return true;
    }

    /** `sta`. */
    method Sta() returns (ok: bool)
      modifies this, memory
      ensures After(ok) == Spec.Sta(old(State()))
    {
      match Cell(PC)
      case None =>
        return false;
      case Some(k) =>
        var address := memory[k];
        PC := PC + 1;
        match Cell(address)
        case None =>
          return false;
        case Some(j) =>
          memory[j] := A;
          return true;
    }

    /** `jmp`. */
    method Jmp() returns (ok: bool)
      modifies this
      ensures After(ok) == Spec.Jmp(old(State()))
    {
      match Cell(PC)
      case None =>
        return false;
      case Some(k) =>
        var address := memory[k];
        PC := address;
        return true;
    }

    /** `jz`. */
    method Jz() returns (ok: bool)
      modifies this
      ensures After(ok) == Spec.Jz(old(State()))
    {
      match Cell(PC)
      case None =>
        return false;
      case Some(k) =>
        var address := memory[k];
        PC := PC + 1;
        if zeroFlag {
          PC := address;
        }
        return true;
    }

    /** `halt`. */
    method Halt()
      modifies this
      ensures State() == Spec.Halt(old(State()))
    {
      running := false;
    }

    /** `execute`: dispatch through the opcode table; an unknown opcode stops the machine. */
    method Execute(instruction: int) returns (ok: bool)
      modifies this, memory
      ensures After(ok) == Spec.Execute(old(State()), instruction)
    {
      ok := true;
      if instruction == 0x00 {
        Nop();
      } else if instruction == 0x01 {
        ok := Lda();
      } else if instruction == 0x02 {
        ok := Add();
      } else if instruction == 0x03 {
        ok := Sub();
      } else if instruction == 0x04 {
        ok := Sta();
      } else if instruction == 0x05 {
        ok := Jmp();
      } else if instruction == 0x06 {
        ok := Jz();
      } else if instruction == 0xFF {
        Halt();
      } else {
        running := false;
      }
    }

    /** One iteration of `run`'s loop: `execute(fetch())`. */
    method Cycle() returns (ok: bool)
      modifies this, memory
      ensures After(ok) == Spec.Step(old(State()))
    {
      var instruction;
      instruction, ok := Fetch();
      if !ok {
        return;
      }
      ok := Execute(instruction);
    }

    /** `run`: from PC 0, fetch and execute while running, for at most `fuel` instructions. */
    method Run(fuel: nat) returns (outcome: Spec.Outcome)
      modifies this, memory
      ensures Spec.Run(outcome, State()) == Spec.RunCpu(old(State()), fuel)
    {
      running := true;
      PC := 0;
      var remaining := fuel;
      while running
        invariant Spec.Loop(State(), remaining) == Spec.RunCpu(old(State()), fuel)
        decreases remaining
      {
        if remaining == 0 {
          return Spec.OutOfFuel;
        }
        Spec.LoopStep(State(), remaining);
        var ok := Cycle();
        if !ok {
          return Spec.Crashed;
        }
        remaining := remaining - 1;
      }
      return Spec.Stopped;
    }
  }
}
