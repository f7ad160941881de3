/**
 * `Compiler.compile` of lang.py as functions. The compiler's fields (the
 * variable table, the current section and the accumulated output lines) are
 * a `CompilerState`; `Compile` returns the state the call leaves and its
 * result, which is the whole output joined by newlines, or the error that
 * was raised. The output is never reset, so each call appends to the lines
 * of the previous ones.
 */
module CompilerSpec {
  import opened Builtins
  import opened Lex = LexerSpec

  datatype Section = CpuSection | GpuSection

  datatype CompilerState = CompilerState(variables: map<string, int>, section: Section, output: seq<string>)

  /** The exceptions `compile` can raise: its three `SyntaxError`s, the lexer's, and `int`'s `ValueError`. */
  datatype CompileError =
    | ExpectedIdentifier
    | ExpectedEquals
    | ExpectedNumber
    | LexicalError(error: LexError)
    | ValueError(literal: string)

  /** The state and cursor after one statement, and the error it raised, if any. */
  datatype Step = Step(state: CompilerState, pos: nat, error: Option<CompileError>)

  datatype Compilation = Compilation(state: CompilerState, result: Result<string, CompileError>)

  /** A token value in an f-string: `None` prints as `None`. */
  function Show(value: Option<string>): string {
    match value
    case Some(s) => s
    case None => "None"
  }

  /** The section a directive line switches to; any other line keeps `s`. */
  function Switch(s: Section, line: string): Section {
    if line == ".CPU" then CpuSection else if line == ".GPU" then GpuSection else s
  }

  /** The section after the lines `lines`, starting in `s`: the one of the last directive among them. */
  function SectionAfter(s: Section, lines: seq<string>): Section
    decreases |lines|
  {
    if lines == [] then s else Switch(SectionAfter(s, lines[..|lines| - 1]), lines[|lines| - 1])
  }

  lemma {:induction false} SectionAfterAppend(s: Section, a: seq<string>, b: seq<string>)
    ensures SectionAfter(s, a + b) == SectionAfter(SectionAfter(s, a), b)
    decreases |b|
  {
    if b == [] {
      assert a + b == a;
    } else {
      assert (a + b)[..|a + b| - 1] == a + b[..|b| - 1];
      SectionAfterAppend(s, a, b[..|b| - 1]);
    }
  }

  /** A line that is not a section directive. */
  predicate Plain(line: string) { line != ".CPU" && line != ".GPU" }

  lemma PlainLines(s: Section, lines: seq<string>)
    requires forall k :: 0 <= k < |lines| ==> Plain(lines[k])
    ensures SectionAfter(s, lines) == s
    decreases |lines|
  {
    if lines != [] {
      PlainLines(s, lines[..|lines| - 1]);
    }
  }

  /** The memory address `var` stores to: `0x20` plus the size of the table after the definition. */
  function Slot(variables: map<string, int>, name: string): (a: nat)
    ensures a == 0x20 + |variables| + (if name in variables then 0 else 1)
  {
    var defined := variables[name := 0];
    assert defined.Keys == variables.Keys + {name};
    0x20 + |defined.Keys|
  }

  /** The slot is the size of the table once `name` is defined, whatever its value. */
  lemma SlotIsSize(variables: map<string, int>, name: string, v: int)
    ensures Slot(variables, name) == 0x20 + |variables[name := v].Keys|
  {
    assert variables[name := v].Keys == variables[name := 0].Keys;
  }

  /**
   * `var NAME = NUMBER`, with the cursor just after `var`: the three tokens
   * are required in turn, and the literal is read by `int(literal, 0)`.
   */
  function Var(text: string, pos: nat, st: CompilerState): (r: Step)
    requires pos <= |text|
    ensures pos <= r.pos <= |text|
    ensures r.error.Some? ==> r.state == st
    ensures r.error.None? ==>
      var first := NextToken(text, pos);
      && first.token.Ok? && first.token.value.kind == Identifier
      && r == VarEquals(text, first.token.value.value.value, first.pos, st)
  {
    var first := NextToken(text, pos);
    if first.token.Err? then Step(st, first.pos, Some(LexicalError(first.token.error)))
    else if first.token.value.kind != Identifier then Step(st, first.pos, Some(ExpectedIdentifier))
    else VarEquals(text, first.token.value.value.value, first.pos, st)
  }

  /** The rest of `var` once the name `name` is read: the `=`, then the number. */
  function VarEquals(text: string, name: string, pos: nat, st: CompilerState): (r: Step)
    requires pos <= |text|
    ensures pos <= r.pos <= |text|
    ensures r.error.Some? ==> r.state == st
    ensures r.error.None? ==>
      var equals := NextToken(text, pos);
      && equals.token == Ok(Token(Operator, Some("=")))
      && r == VarNumber(text, name, equals.pos, st)
  {
    var equals := NextToken(text, pos);
    if equals.token.Err? then Step(st, equals.pos, Some(LexicalError(equals.token.error)))
    else if equals.token.value.kind != Operator || equals.token.value.value != Some("=") then Step(st, equals.pos, Some(ExpectedEquals))
    else VarNumber(text, name, equals.pos, st)
  }

  /** The rest of `var` once `name =` is read: the number literal and the definition. */
  function VarNumber(text: string, name: string, pos: nat, st: CompilerState): (r: Step)
    requires pos <= |text|
    ensures pos <= r.pos <= |text|
    ensures r.error.Some? ==> r.state == st
    ensures r.error.None? ==>
      var number := NextToken(text, pos);
      && number.token.Ok? && number.token.value.kind == Number
      && r.pos == number.pos
      && var literal := number.token.value.value.value;
        && PyIntBase0(literal).Some?
        && r.state.variables == st.variables[name := PyIntBase0(literal).value]
        && r.state.section == st.section
        && r.state.output == st.output + ["LDA " + literal, "STA " + Hex(Slot(st.variables, name))]
  {
    var number := NextToken(text, pos);
    if number.token.Err? then Step(st, number.pos, Some(LexicalError(number.token.error)))
    else if number.token.value.kind != Number then Step(st, number.pos, Some(ExpectedNumber))
    else
      var literal := number.token.value.value.value;
      match PyIntBase0(literal)
      case None => Step(st, number.pos, Some(ValueError(literal)))
      case Some(v) =>
        Step(CompilerState(st.variables[name := v], st.section, st.output + ["LDA " + literal, "STA " + Hex(Slot(st.variables, name))]), number.pos, None)
  }

  /** The lines a drawing command emits from the operand tokens read after it. */
  function CommandLines(command: string, a: Option<string>, b: Option<string>): seq<string> {
    if command == "rect" then ["RECT " + Show(a) + " " + Show(b)]
    else if command == "setpos" then ["SETX " + Show(a), "SETY " + Show(b)]
    else ["SETC " + Show(a)]
  }

  lemma CommandLinesPlain(command: string, a: Option<string>, b: Option<string>)
    ensures forall k :: 0 <= k < |CommandLines(command, a, b)| ==> Plain(CommandLines(command, a, b)[k])
  {
    assert ("RECT " + Show(a) + " " + Show(b))[0] == 'R';
    assert ("SETX " + Show(a))[0] == 'S';
    assert ("SETY " + Show(b))[0] == 'S';
    assert ("SETC " + Show(a))[0] == 'S';
  }

  /**
   * An identifier in the GPU section: `clear` and `plot` emit their
   * instruction; `rect` and `setpos` read the next two tokens, `setcolor` the
   * next one, whatever they are; any other identifier is ignored.
   */
  function Command(text: string, command: string, pos: nat, st: CompilerState): (r: Step)
    requires pos <= |text|
    ensures pos <= r.pos <= |text|
    ensures r.error.Some? ==> r.state == st
    ensures r.state.variables == st.variables && r.state.section == st.section
    ensures st.output <= r.state.output
    ensures forall k :: |st.output| <= k < |r.state.output| ==> Plain(r.state.output[k])
    ensures command !in {"clear", "plot", "rect", "setpos", "setcolor"} ==> r == Step(st, pos, None)
  {
    if command == "clear" then Step(CompilerState(st.variables, st.section, st.output + ["CLEAR"]), pos, None)
    else if command == "plot" then Step(CompilerState(st.variables, st.section, st.output + ["PLOT"]), pos, None)
    else if command in {"rect", "setpos", "setcolor"} then
      var first := NextToken(text, pos);
      if first.token.Err? then Step(st, first.pos, Some(LexicalError(first.token.error)))
      else if command == "setcolor" then
        CommandLinesPlain(command, first.token.value.value, None);
        Step(CompilerState(st.variables, st.section, st.output + CommandLines(command, first.token.value.value, None)), first.pos, None)
      else
        var second := NextToken(text, first.pos);
        if second.token.Err? then Step(st, second.pos, Some(LexicalError(second.token.error)))
        else
          CommandLinesPlain(command, first.token.value.value, second.token.value.value);
          Step(CompilerState(st.variables, st.section, st.output + CommandLines(command, first.token.value.value, second.token.value.value)), second.pos, None)
    else Step(st, pos, None)
  }

  /** One turn of the loop of `compile` on the token `token`, up to the fetch of the next one. */
  function Statement(text: string, token: Token, pos: nat, st: CompilerState): (r: Step)
    requires pos <= |text|
    ensures pos <= r.pos <= |text|
    ensures st.output <= r.state.output
    ensures st.variables.Keys <= r.state.variables.Keys
  {
    if token.kind == Keyword && token.value == Some("compute") then
      Step(CompilerState(st.variables, CpuSection, st.output + [".CPU"]), pos, None)
    else if token.kind == Keyword && token.value == Some("draw") then
      Step(CompilerState(st.variables, GpuSection, st.output + [".GPU"]), pos, None)
    else if token.kind == Keyword && token.value == Some("var") then Var(text, pos, st)
    else if token.kind == Identifier && st.section == GpuSection then Command(text, Show(token.value), pos, st)
    else Step(st, pos, None)
  }

  /** `var` emits no directive and keeps the section. */
  lemma VarPlain(text: string, pos: nat, st: CompilerState)
    requires pos <= |text|
    ensures var r := Var(text, pos, st);
      && r.state.section == st.section && st.output <= r.state.output
      && forall k :: |st.output| <= k < |r.state.output| ==> Plain(r.state.output[k])
  {
    var r := Var(text, pos, st);
    if r.error.None? {
      var first := NextToken(text, pos);
      var name := first.token.value.value.value;
      var equals := NextToken(text, first.pos);
      var number := NextToken(text, equals.pos);
      var literal := number.token.value.value.value;
      assert r == VarNumber(text, name, equals.pos, st);
      assert r.state.output == st.output + ["LDA " + literal, "STA " + Hex(Slot(st.variables, name))];
      assert ("LDA " + literal)[0] == 'L' && ("STA " + Hex(Slot(st.variables, name)))[0] == 'S';
    }
  }

  /** Output with no directive in it leaves the section as it was. */
  lemma PlainSection(section: Section, before: seq<string>, after: seq<string>)
    requires before <= after
    requires forall k :: |before| <= k < |after| ==> Plain(after[k])
    ensures SectionAfter(section, after[|before|..]) == section
  {
    PlainLines(section, after[|before|..]);
  }

  /** The section after a turn is that of the last directive it emitted, if any. */
  lemma StatementSection(text: string, token: Token, pos: nat, st: CompilerState)
    requires pos <= |text|
    ensures var r := Statement(text, token, pos, st);
      SectionAfter(st.section, r.state.output[|st.output|..]) == r.state.section
  {
    var r := Statement(text, token, pos, st);
    if token.kind == Keyword && token.value in {Some("compute"), Some("draw")} {
      var added := r.state.output[|st.output|..];
      assert added == [r.state.output[|st.output|]];
      assert SectionAfter(st.section, added) == Switch(SectionAfter(st.section, []), added[0]);
    } else if token.kind == Keyword && token.value == Some("var") {
      VarPlain(text, pos, st);
      PlainSection(st.section, st.output, r.state.output);
    } else if token.kind == Identifier && st.section == GpuSection {
      PlainSection(st.section, st.output, r.state.output);
    } else {
      assert r.state.output[|st.output|..] == [];
    }
  }

  /**
   * The loop `while token.type != EOF` from the token `token`, with the
   * cursor at `pos`, then the closing HALT or GHALT.
   */
  function Run(text: string, token: Token, pos: nat, st: CompilerState): (r: Compilation)
    requires pos <= |text|
    ensures st.output <= r.state.output
    ensures st.variables.Keys <= r.state.variables.Keys
    decreases |text| - pos, if token.kind == Eof then 0 else 1
  {
    if token.kind == Eof then
      var output := st.output + [if st.section == CpuSection then "HALT" else "GHALT"];
      Compilation(CompilerState(st.variables, st.section, output), Ok(Join(output, '\n')))
    else
      var step := Statement(text, token, pos, st);
      if step.error.Some? then Compilation(step.state, Err(step.error.value))
      else
        var next := NextToken(text, step.pos);
        if next.token.Err? then Compilation(step.state, Err(LexicalError(next.token.error)))
        else Run(text, next.token.value, next.pos, step.state)
  }

  /**
   * A successful run from the state `st`: it added lines, the section is
   * that of the last directive among them (or `st`'s when there is none),
   * the last line is the halt of that section, and the result is all the
   * output lines joined by newlines.
   */
  predicate Halted(st: CompilerState, r: Compilation)
    requires r.result.Ok?
  {
    && st.output < r.state.output
    && r.result.value == Join(r.state.output, '\n')
    && SectionAfter(st.section, r.state.output[|st.output|..|r.state.output| - 1]) == r.state.section
    && r.state.output[|r.state.output| - 1] == (if r.state.section == CpuSection then "HALT" else "GHALT")
  }

  /**
   * What the loop leaves: the section is that of the last directive it
   * emitted, and a successful run ends with the halt of that section and
   * returns all the output lines joined.
   */
  lemma {:induction false} RunEnds(text: string, token: Token, pos: nat, st: CompilerState)
    requires pos <= |text|
    ensures Run(text, token, pos, st).result.Ok? ==> Halted(st, Run(text, token, pos, st))
    decreases |text| - pos, if token.kind == Eof then 0 else 1
  {
    if token.kind == Eof {
      HaltedAtEof(st);
    } else {
      var step := Statement(text, token, pos, st);
      if step.error.None? {
        var next := NextToken(text, step.pos);
        if next.token.Ok? {
          RunEnds(text, next.token.value, next.pos, step.state);
          var r := Run(text, next.token.value, next.pos, step.state);
          if r.result.Ok? {
            StatementSection(text, token, pos, st);
            HaltedAfterStep(st, step.state, r);
          }
        }
      }
    }
  }

  /** The end of the loop: the halt of the current section is added. */
  lemma HaltedAtEof(st: CompilerState)
    ensures var output := st.output + [if st.section == CpuSection then "HALT" else "GHALT"];
      Halted(st, Compilation(CompilerState(st.variables, st.section, output), Ok(Join(output, '\n'))))
  {
    var output := st.output + [if st.section == CpuSection then "HALT" else "GHALT"];
    assert output[|st.output|..|output| - 1] == [];
  }

  /** The section bookkeeping of one turn of the loop composed with the rest of it. */
  lemma HaltedAfterStep(st: CompilerState, mid: CompilerState, r: Compilation)
    requires r.result.Ok? && Halted(mid, r)
    requires st.output <= mid.output
    requires SectionAfter(st.section, mid.output[|st.output|..]) == mid.section
    ensures Halted(st, r)
  {
    var last := r.state;
    assert last.output[|st.output|..|last.output| - 1] == mid.output[|st.output|..] + last.output[|mid.output|..|last.output| - 1];
    SectionAfterAppend(st.section, mid.output[|st.output|..], last.output[|mid.output|..|last.output| - 1]);
  }

  /** `compile(source)` on a compiler in the state `st`. */
  function Compile(st: CompilerState, source: string): (r: Compilation)
    ensures st.output <= r.state.output
    ensures st.variables.Keys <= r.state.variables.Keys
  {
    var first := NextToken(source, 0);
    if first.token.Err? then Compilation(st, Err(LexicalError(first.token.error)))
    else Run(source, first.token.value, first.pos, st)
  }

  /**
   * A successful `compile` returns every output line, of this call and of
   * the earlier ones, joined by newlines; the last line is HALT when the last
   * section directive among the new lines is `.CPU`, or when there is none
   * and the compiler was in the CPU section, and GHALT otherwise.
   */
  lemma CompileEnds(st: CompilerState, source: string)
    ensures Compile(st, source).result.Ok? ==> Halted(st, Compile(st, source))
  {
    var first := NextToken(source, 0);
    if first.token.Ok? {
      assert Compile(st, source) == Run(source, first.token.value, first.pos, st);
      RunEnds(source, first.token.value, first.pos, st);
    }
  }

  // ---------------------------------------------------------------------------
  // Properties of the compiler

  /** Outside the GPU section an identifier emits nothing and reads no further token. */
  lemma CommandsOnlyInGpuSection(text: string, token: Token, pos: nat, st: CompilerState)
    requires pos <= |text| && token.kind == Identifier && st.section == CpuSection
    ensures Statement(text, token, pos, st) == Step(st, pos, None)
  {
  }

  /** The first variable of a fresh compiler is stored at 0x21. */
  lemma FirstVariableSlot(name: string)
    ensures Slot(map[], name) == 0x21
  {
  }

  /**
   * Redefining a variable stores to the slot of the most recently added
   * variable, not to its own: after `var a` and `var b` on a table without
   * them, `var a` again stores to `b`'s slot.
   */
  lemma RedefinitionReusesLastSlot(variables: map<string, int>, a: string, b: string, x: int)
    requires a != b && a !in variables && b !in variables
    ensures Slot(variables[a := x], b) == Slot(variables[a := x][b := x], a)
    ensures Slot(variables, a) != Slot(variables[a := x], b)
  {
  }

  /**
   * A successful `var NAME = NUMBER` binds NAME to the value of the literal,
   * emits `LDA` with the literal as written, then `STA` to 0x20 plus the
   * number of distinct variables, which grows only for a new name.
   */
  lemma VarDefines(text: string, pos: nat, st: CompilerState)
    requires pos <= |text| && Var(text, pos, st).error.None?
    ensures var r := Var(text, pos, st);
      var first := NextToken(text, pos);
      var equals := NextToken(text, first.pos);
      var number := NextToken(text, equals.pos);
      && first.token.Ok? && first.token.value.kind == Identifier
      && number.token.Ok? && number.token.value.kind == Number
      && var name := first.token.value.value.value;
        var literal := number.token.value.value.value;
        && name in r.state.variables && PyIntBase0(literal) == Some(r.state.variables[name])
        && |r.state.variables| == |st.variables| + (if name in st.variables then 0 else 1)
        && r.state.output == st.output + ["LDA " + literal, "STA " + Hex(0x20 + |r.state.variables|)]
  {
    var r := Var(text, pos, st);
    var first := NextToken(text, pos);
    var name := first.token.value.value.value;
    var equals := NextToken(text, first.pos);
    var number := NextToken(text, equals.pos);
    assert r == VarNumber(text, name, equals.pos, st);
    var v := PyIntBase0(number.token.value.value.value).value;
    SlotIsSize(st.variables, name, v);
  }

  /** `var` fails with the error of the first missing part. */
  lemma VarErrors(text: string, pos: nat, st: CompilerState)
    requires pos <= |text|
    ensures var first := NextToken(text, pos);
      first.token.Ok? && first.token.value.kind != Identifier ==> Var(text, pos, st).error == Some(ExpectedIdentifier)
    ensures var first := NextToken(text, pos); var equals := NextToken(text, first.pos);
      first.token.Ok? && first.token.value.kind == Identifier && equals.token.Ok? && equals.token.value != Token(Operator, Some("="))
      ==> Var(text, pos, st).error == Some(ExpectedEquals)
    ensures var first := NextToken(text, pos); var equals := NextToken(text, first.pos); var number := NextToken(text, equals.pos);
      first.token.Ok? && first.token.value.kind == Identifier && equals.token == Ok(Token(Operator, Some("=")))
      && number.token.Ok? && number.token.value.kind != Number
      ==> Var(text, pos, st).error == Some(ExpectedNumber)
  {
  }
}
