/**
 * The `Compiler` class of lang.py: `compile` pulls tokens from a fresh
 * `Lexer` and appends to the fields `output` and `variables`, which persist
 * between calls. The method is proved to leave the fields, and to return,
 * what CompilerSpec.Compile says, on success and when it raises.
 */
module CompilerEngine {
  import opened Builtins
  import opened LexerSpec
  import opened LexerEngine
  import Spec = CompilerSpec

  class Compiler {
    var variables: map<string, int>
    var currentSection: Spec.Section
    var output: seq<string>

    function State(): Spec.CompilerState
      reads this
    {
      Spec.CompilerState(variables, currentSection, output)
    }

    /** `Compiler()`: no variables, the CPU section, no output. */
    constructor ()
      ensures variables == map[] && currentSection == Spec.CpuSection && output == []
    {
      variables := map[];
      currentSection := Spec.CpuSection;
      output := [];
    }

    /** `compile(source)`; a raised exception is the `Err` result, with the fields as it left them. */
    method Compile(source: string) returns (result: Result<string, Spec.CompileError>)
      modifies this
      ensures Spec.Compilation(State(), result) == Spec.Compile(old(State()), source)
    {
      var lexer := new Lexer(source);
      var next := lexer.GetNextToken();
      if next.Err? {
        return Err(Spec.LexicalError(next.error));
      }
      var token := next.value;
      while token.kind != Eof
        invariant lexer.Valid() && lexer.text == source && lexer.pos <= |source|
        invariant Spec.Run(source, token, lexer.pos, State()) == Spec.Compile(old(State()), source)
        decreases |source| - lexer.pos, if token.kind == Eof then 0 else 1
      {
        ghost var before := State();
        ghost var start := lexer.pos;
        var error := CompileStatement(lexer, token);
        ghost var step := Spec.Statement(source, token, start, before);
        assert step == Spec.Step(State(), lexer.pos, error);
        if error.Some? {
          assert Spec.Run(source, token, start, before) == Spec.Compilation(State(), Err(error.value));
          return Err(error.value);
        }
        next := lexer.GetNextToken();
        if next.Err? {
          assert Spec.Run(source, token, start, before) == Spec.Compilation(State(), Err(Spec.LexicalError(next.error)));
          return Err(Spec.LexicalError(next.error));
        }
        assert Spec.Run(source, token, start, before) == Spec.Run(source, next.value, lexer.pos, State());
        token := next.value;
      }
      ghost var last := State();
      if currentSection == Spec.CpuSection {
        output := output + ["HALT"];
      } else {
        output := output + ["GHALT"];
      }
      assert Spec.Run(source, token, lexer.pos, last) == Spec.Compilation(State(), Ok(Join(output, '\n')));
      return Ok(Join(output, '\n'));
    }

    /** The body of the loop of `compile` for one token, up to the fetch of the next one. */
    method CompileStatement(lexer: Lexer, token: Token) returns (error: Option<Spec.CompileError>)
      requires lexer.Valid() && lexer.pos <= |lexer.text|
      modifies this, lexer
      ensures lexer.Valid()
      ensures Spec.Step(State(), lexer.pos, error) == Spec.Statement(lexer.text, token, old(lexer.pos), old(State()))
    {
      error := None;
      if token.kind == Keyword {
        if token.value == Some("compute") {
          output := output + [".CPU"];
          currentSection := Spec.CpuSection;
        } else if token.value == Some("draw") {
          output := output + [".GPU"];
          currentSection := Spec.GpuSection;
        } else if token.value == Some("var") {
          error := CompileVar(lexer);
        }
      } else if token.kind == Identifier {
        if currentSection == Spec.GpuSection {
          error := CompileCommand(lexer, Spec.Show(token.value));
        }
      }
    }

    /** The `var` branch: identifier, `=` and number, each or a `SyntaxError`. */
    method CompileVar(lexer: Lexer) returns (error: Option<Spec.CompileError>)
      requires lexer.Valid() && lexer.pos <= |lexer.text|
      modifies this, lexer
      ensures lexer.Valid()
      ensures Spec.Step(State(), lexer.pos, error) == Spec.Var(lexer.text, old(lexer.pos), old(State()))
    {
      var next := lexer.GetNextToken();
      if next.Err? {
        return Some(Spec.LexicalError(next.error));
      }
      if next.value.kind != Identifier {
        return Some(Spec.ExpectedIdentifier);
      }
      var name := next.value.value.value;
      error := CompileVarValue(lexer, name);
    }

    /** The `var` branch after the name: the `=`, then the number. */
    method CompileVarValue(lexer: Lexer, name: string) returns (error: Option<Spec.CompileError>)
      requires lexer.Valid() && lexer.pos <= |lexer.text|
      modifies this, lexer
      ensures lexer.Valid()
      ensures Spec.Step(State(), lexer.pos, error) == Spec.VarEquals(lexer.text, name, old(lexer.pos), old(State()))
    {
      var next := lexer.GetNextToken();
      if next.Err? {
        return Some(Spec.LexicalError(next.error));
      }
      if next.value.kind != Operator || next.value.value != Some("=") {
        return Some(Spec.ExpectedEquals);
      }
      error := CompileVarNumber(lexer, name);
    }

    /** The `var` branch after `name =`: the number literal, `int(literal, 0)` and the definition. */
    method CompileVarNumber(lexer: Lexer, name: string) returns (error: Option<Spec.CompileError>)
      requires lexer.Valid() && lexer.pos <= |lexer.text|
      modifies this, lexer
      ensures lexer.Valid()
      ensures Spec.Step(State(), lexer.pos, error) == Spec.VarNumber(lexer.text, name, old(lexer.pos), old(State()))
    {
      var next := lexer.GetNextToken();
      if next.Err? {
        return Some(Spec.LexicalError(next.error));
      }
      if next.value.kind != Number {
        return Some(Spec.ExpectedNumber);
      }
      var literal := next.value.value.value;
      var value := PyIntBase0(literal);
      if value.None? {
        return Some(Spec.ValueError(literal));
      }
      Spec.SlotIsSize(variables, name, value.value);
      variables := variables[name := value.value];
      output := output + ["LDA " + literal, "STA " + Hex(|variables.Keys| + 0x20)];
      return None;
    }

    /** The drawing commands of the GPU section; `rect`, `setpos` and `setcolor` read their operand tokens. */
    method CompileCommand(lexer: Lexer, command: string) returns (error: Option<Spec.CompileError>)
      requires lexer.Valid() && lexer.pos <= |lexer.text|
      modifies this, lexer
      ensures lexer.Valid()
      ensures Spec.Step(State(), lexer.pos, error) == Spec.Command(lexer.text, command, old(lexer.pos), old(State()))
    {
      if command == "clear" {
        output := output + ["CLEAR"];
      } else if command == "plot" {
        output := output + ["PLOT"];
      } else if command == "rect" || command == "setpos" {
        var first := lexer.GetNextToken();
        if first.Err? {
          return Some(Spec.LexicalError(first.error));
        }
        var second := lexer.GetNextToken();
        if second.Err? {
          return Some(Spec.LexicalError(second.error));
        }
        if command == "rect" {
          output := output + ["RECT " + Spec.Show(first.value.value) + " " + Spec.Show(second.value.value)];
        } else {
          output := output + ["SETX " + Spec.Show(first.value.value)];
          output := output + ["SETY " + Spec.Show(second.value.value)];
        }
      } else if command == "setcolor" {
        var first := lexer.GetNextToken();
        if first.Err? {
          return Some(Spec.LexicalError(first.error));
        }
        output := output + ["SETC " + Spec.Show(first.value.value)];
      }
      return None;
    }
  }
}
