/**
 * The `Assembler` class of assembler.py. The opcode tables are constants set
 * by the constructor; the symbol table is a field that `assemble` updates and
 * that carries over from one call to the next; the two passes are the loops
 * of the source, appending to `cleaned_lines` and to the machine code. The
 * method is proved to compute AssemblerSpec.Assemble, result and symbol table
 * alike, on success and on every error.
 */
module AssemblerEngine {
  import opened Builtins
  import Isa
  import Spec = AssemblerSpec

  /** `prefix` put in front of a successful result; an error passes through. */
  function Prefixed(prefix: seq<int>, r: Result<seq<int>, Spec.AsmError>): Result<seq<int>, Spec.AsmError> {
    match r
    case Ok(code) => Ok(prefix + code)
    case Err(e) => Err(e)
  }

  lemma PrefixedTwice(a: seq<int>, b: seq<int>, r: Result<seq<int>, Spec.AsmError>)
    ensures Prefixed(a, Prefixed(b, r)) == Prefixed(a + b, r)
  {
    if r.Ok? {
      assert a + (b + r.value) == (a + b) + r.value;
    }
  }

  lemma PrefixedNothing(r: Result<seq<int>, Spec.AsmError>)
    ensures Prefixed([], r) == r
  {
    if r.Ok? {
      assert [] + r.value == r.value;
    }
  }

  class Assembler {
    const cpuInstructions: map<string, int>
    const gpuInstructions: map<string, int>
    var symbols: map<string, int>

    /** The opcode tables are the instruction sets of the two engines. */
    predicate Valid() {
      cpuInstructions == Isa.CpuTable && gpuInstructions == Isa.GpuTable
    }

    /** `Assembler()`: the two tables and an empty symbol table. */
    constructor ()
      ensures Valid() && symbols == map[]
    {
      cpuInstructions := Isa.CpuTable;
      gpuInstructions := Isa.GpuTable;
      symbols := map[];
    }

    /**
     * `assemble(source)`. A raised `ValueError` is the `Err` result; the
     * labels bound before it stay in the symbol table, as in the source.
     */
    method Assemble(source: string) returns (result: Result<seq<int>, Spec.AsmError>)
      requires Valid()
      modifies this
      ensures result == Spec.Assemble(old(symbols), source).result
      ensures symbols == Spec.Assemble(old(symbols), source).symbols
    {
      var cleaned, error := FirstPass(source);
      if error.Some? {
        return Err(error.value);
      }
      result := SecondPass(cleaned);
    }

    /** The first loop of `assemble`: cleans the lines, follows the directives and binds the labels. */
    method FirstPass(source: string) returns (cleaned: seq<Spec.Entry>, error: Option<Spec.AsmError>)
      modifies this
      ensures forall e :: e in cleaned ==> Spec.Kept(e)
      ensures symbols == Spec.Pass1(old(symbols), source).state.symbols
      ensures cleaned == Spec.Pass1(old(symbols), source).state.cleaned
      ensures error == Spec.Pass1(old(symbols), source).error
    {
      var lines := SplitOn(source, '\n');
      cleaned := [];
      var address := 0;
      var mode := Spec.Cpu;
      var i := 0;
      while i < |lines|
        invariant 0 <= i <= |lines|
        invariant forall e :: e in cleaned ==> Spec.Kept(e)
        invariant Spec.Pass1Lines(Spec.Pass1State(cleaned, address, mode, symbols), lines[i..]) == Spec.Pass1(old(symbols), source)
      {
        ghost var st := Spec.Pass1State(cleaned, address, mode, symbols);
        Spec.Pass1LinesStep(st, lines[i..]);
        assert lines[i..][0] == lines[i] && lines[i..][1..] == lines[i + 1..];
        cleaned, address, mode, error := FirstPassLine(lines[i], cleaned, address, mode);
        if error.Some? {
          assert Spec.Pass1Lines(st, lines[i..]) == Spec.Pass1Run(st, error);
          return;
        }
        assert Spec.Pass1Line(st, lines[i]) == Ok(Spec.Pass1State(cleaned, address, mode, symbols));
        Spec.ExtendsKept(st.cleaned, cleaned);
        i := i + 1;
      }
      assert lines[i..] == [];
      return cleaned, None;
    }

    /** One iteration of the first loop; each `continue` of the source is a return. */
    method FirstPassLine(raw: string, cleaned: seq<Spec.Entry>, address: int, mode: Spec.Mode)
      returns (cleaned': seq<Spec.Entry>, address': int, mode': Spec.Mode, error: Option<Spec.AsmError>)
      modifies this
      ensures var r := Spec.Pass1Line(Spec.Pass1State(cleaned, address, mode, old(symbols)), raw);
        && (error.None? <==> r.Ok?)
        && (r.Ok? ==> r.value == Spec.Pass1State(cleaned', address', mode', symbols))
        && (r.Err? ==> error == Some(r.error) && symbols == old(symbols) && cleaned' == cleaned)
    {
      ghost var st := Spec.Pass1State(cleaned, address, mode, symbols);
      cleaned', address', mode', error := cleaned, address, mode, None;
      var line := Spec.CleanLine(raw);
      if line == [] {
        return;
      }
      if line[0] == '.' {
        var directive := Upper(line[1..]);
        if directive == "CPU" || directive == "GPU" {
          mode' := if directive == "CPU" then Spec.Cpu else Spec.Gpu;
          cleaned' := cleaned + [Spec.Entry(mode', line)];
          return;
        }
        return cleaned, address, mode, Some(Spec.UnknownDirective(line));
      }
      assert Spec.Pass1Line(st, raw) == Ok(Spec.Statement(st, line));
      cleaned', address', mode' := FirstPassStatement(line, cleaned, address, mode);
    }

    /** The rest of an iteration for a line that is not a directive: the label, then the kept text. */
    method FirstPassStatement(line: string, cleaned: seq<Spec.Entry>, address: int, mode: Spec.Mode)
      returns (cleaned': seq<Spec.Entry>, address': int, mode': Spec.Mode)
      requires line != [] && !IsSpace(line[0])
      modifies this
      ensures Spec.Pass1State(cleaned', address', mode', symbols) == Spec.Statement(Spec.Pass1State(cleaned, address, mode, old(symbols)), line)
    {
      ghost var st := Spec.Pass1State(cleaned, address, mode, symbols);
      cleaned', address', mode' := cleaned, address, mode;
      var text := line;
      if ':' in text {
        var name := Strip(Before(text, ':'));
        var rest := After(text, ':');
        symbols := symbols[name := address];
        text := Strip(rest);
        if text == [] {
          return;
        }
      }
      assert Spec.Statement(st, line) == Spec.Keep(Spec.Pass1State(cleaned, address, mode, symbols), text);
      cleaned', address' := FirstPassKeep(text, cleaned, address, mode);
    }

    /** The end of an iteration: the text is kept with the mode in force and the counter moves by its token count. */
    method FirstPassKeep(text: string, cleaned: seq<Spec.Entry>, address: int, mode: Spec.Mode)
      returns (cleaned': seq<Spec.Entry>, address': int)
      requires text != [] && !IsSpace(text[0])
      ensures Spec.Pass1State(cleaned', address', mode, symbols) == Spec.Keep(Spec.Pass1State(cleaned, address, mode, symbols), text)
    {
      cleaned' := cleaned + [Spec.Entry(mode, text)];
      var parts := Words(text);
      address' := address + 1;
      if |parts| > 1 {
        address' := address' + |parts| - 1;
      }
    }

    /** The second loop of `assemble`: one opcode per kept line, then its operands. */
    method SecondPass(cleaned: seq<Spec.Entry>) returns (result: Result<seq<int>, Spec.AsmError>)
      requires Valid()
      requires forall e :: e in cleaned ==> Spec.Kept(e)
      ensures result == Spec.Pass2(cleaned, Spec.Cpu, symbols)
    {
      var machineCode: seq<int> := [];
      var mode := Spec.Cpu;
      var j := 0;
      PrefixedNothing(Spec.Pass2(cleaned, Spec.Cpu, symbols));
      while j < |cleaned|
        invariant 0 <= j <= |cleaned|
        invariant forall e :: e in cleaned[j..] ==> Spec.Kept(e)
        invariant Spec.Pass2(cleaned, Spec.Cpu, symbols) == Prefixed(machineCode, Spec.Pass2(cleaned[j..], mode, symbols))
      {
        assert cleaned[j..][0] == cleaned[j] && cleaned[j..][1..] == cleaned[j + 1..];
        assert cleaned[j] in cleaned[j..];
        var next, bytes, error := SecondPassLine(cleaned[j], mode);
        if error.Some? {
          return Err(error.value);
        }
        assert Spec.Pass2(cleaned[j..], mode, symbols) == Prefixed(bytes, Spec.Pass2(cleaned[j + 1..], next, symbols));
        PrefixedTwice(machineCode, bytes, Spec.Pass2(cleaned[j + 1..], next, symbols));
        machineCode := machineCode + bytes;
        mode := next;
        j := j + 1;
      }
      assert cleaned[j..] == [] && machineCode + [] == machineCode;
      return Ok(machineCode);
    }

    /** One iteration of the second loop: a directive restores its mode, any other line is encoded. */
    method SecondPassLine(entry: Spec.Entry, mode: Spec.Mode) returns (next: Spec.Mode, bytes: seq<int>, error: Option<Spec.AsmError>)
      requires Valid() && Spec.Kept(entry)
      ensures var r := Spec.Pass2Entry(entry, mode, symbols);
        && (error.None? <==> r.Ok?)
        && (r.Ok? ==> r.value == (next, bytes))
        && (r.Err? ==> error == Some(r.error))
    {
      if entry.text[0] == '.' {
        return entry.mode, [], None;
      }
      WordsNonEmpty(entry.text);
      var parts := Words(entry.text);
      var instruction := Upper(parts[0]);
      var instructionSet := if mode == Spec.Cpu then cpuInstructions else gpuInstructions;
      if instruction !in instructionSet {
        return mode, [], Some(Spec.UnknownInstruction(mode, instruction));
      }
      var operands := EncodeOperands(parts[1..]);
      if operands.Err? {
        return mode, [], Some(operands.error);
      }
      return mode, [instructionSet[instruction]] + operands.value, None;
    }

    /** The `for operand in parts[1:]` loop: a literal of at most 255, or a bound symbol. */
    method EncodeOperands(operands: seq<string>) returns (result: Result<seq<int>, Spec.AsmError>)
      ensures result == Spec.Operands(operands, symbols)
    {
      var values: seq<int> := [];
      var k := 0;
      PrefixedNothing(Spec.Operands(operands, symbols));
      while k < |operands|
        invariant 0 <= k <= |operands|
        invariant Prefixed(values, Spec.Operands(operands[k..], symbols)) == Spec.Operands(operands, symbols)
      {
        var operand := operands[k];
        assert operands[k..][0] == operand && operands[k..][1..] == operands[k + 1..];
        var value;
        if Spec.IsNumber(operand) {
          value := Spec.ParseValue(operand).value;
          if value > 255 {
            return Err(Spec.OperandTooLarge(operand));
          }
        } else if operand in symbols {
          value := symbols[operand];
        } else {
          return Err(Spec.UnknownOperand(operand));
        }
        PrefixedTwice(values, [value], Spec.Operands(operands[k + 1..], symbols));
        values := values + [value];
        k := k + 1;
      }
      assert operands[k..] == [] && values + [] == values;
      return Ok(values);
    }
  }
}
