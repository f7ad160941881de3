/**
 * The `GPU` class of gpu.py: the frame buffer as an array written in place
 * (and replaced by a fresh zeroed one on CLEAR), the pixel primitives, the
 * opcode handlers and the execute loop of `load_program`, bounded by fuel
 * since CLEAR never moves PC. Every method is proved to do what the matching
 * function of GpuSpec does.
 */
module GpuEngine {
  import opened Builtins
  import Spec = GpuSpec

  class Gpu {
    const width: nat
    const height: nat
    const memorySize: nat
    var vram: array<int>
    var PC: nat
    var program: seq<int>
    var currentX: int
    var currentY: int
    var currentR: int
    var currentG: int
    var currentB: int
    var running: bool

    /** The screen is not empty and vram has `width * height * 3` cells. */
    ghost predicate Valid()
      reads this
    {
      width > 0 && height > 0 && memorySize == Spec.MemorySize(width, height) && vram.Length == memorySize
    }

    /** The fields the handlers read and write, as a value. */
    ghost function State(): Spec.State
      reads this, vram
    {
      Spec.State(vram[..], PC, currentX, currentY, currentR, currentG, currentB, running)
    }

    /** The current state, as completed normally or interrupted by an exception. */
    ghost function After(error: Option<Spec.Error>): Spec.Effect
      reads this, vram
    {
      match error
      case None => Spec.Next(State())
      case Some(err) => Spec.Raise(err, State())
    }

    /**
     * `GPU(width, height)`: a zeroed frame buffer of `width * height * 3`
     * cells and the cursor at (0, 0).
     */
    constructor (w: nat, h: nat)
      requires w > 0 && h > 0
      ensures Valid() && fresh(vram) && width == w && height == h
      ensures forall i :: 0 <= i < vram.Length ==> vram[i] == 0
      ensures currentX == 0 && currentY == 0 && !running
    {
      width, height := w, h;
      memorySize := w * h * 3;
      vram := new int[w * h * 3](_ => 0);
      currentX, currentY := 0, 0;
      PC, program := 0, [];
      currentR, currentG, currentB := 0, 0, 0;
      running := false;
    }

    // -------------------------------------------------------------------------
    // Pixel primitives

    /** `write_pixel`. */
    method WritePixel(x: int, y: int, r: int, g: int, b: int)
      requires Valid()
      modifies vram
      ensures vram[..] == Spec.WritePixel(old(vram[..]), width, height, x, y, r, g, b)
    {
      if 0 <= x < width && 0 <= y < height {
        var base := (y * width + x) * 3;
        Spec.CellOfPixel(width, height, x, y, 2);
        vram[base] := LowByte(r);
        vram[base + 1] := LowByte(g);
        vram[base + 2] := LowByte(b);
      }
    }

    /** `read_pixel`. */
    function ReadPixel(x: int, y: int): (p: (int, int, int))
      requires Valid()
      reads this, vram
      ensures p == Spec.ReadPixel(vram[..], width, height, x, y)
    {
      if 0 <= x < width && 0 <= y < height then
        Spec.CellOfPixel(width, height, x, y, 2);
        var base := (y * width + x) * 3;
        (vram[base], vram[base + 1], vram[base + 2])
      else
        (0, 0, 0)
    }

    /** `clear_screen(r, g, b)`: one pixel (three cells) per iteration. */
    method ClearScreen(r: int, g: int, b: int)
      requires Valid()
      modifies vram
      ensures vram[..] == Spec.ClearScreen(old(vram[..]), r, g, b)
    {
      ghost var colour := Spec.ClearScreen(old(vram[..]), r, g, b);
      ghost var pixels := width * height;
      assert memorySize == 3 * pixels;
      var i := 0;
      ghost var p := 0;
      while i < memorySize
        invariant 0 <= p <= pixels && i == 3 * p
        invariant forall k :: 0 <= k < i ==> vram[k] == colour[k]
        decreases memorySize - i
      {
        Spec.ClearScreenPixel(old(vram[..]), r, g, b, p);
        vram[i] := LowByte(r);
        vram[i + 1] := LowByte(g);
        vram[i + 2] := LowByte(b);
        i, p := i + 3, p + 1;
      }
      assert vram[..] == colour;
    }

    /** `draw_rectangle(x, y, w, h, r, g, b)`: a `write_pixel` per pixel, row by row. */
    method DrawRectangle(x: int, y: int, w: int, h: int, r: int, g: int, b: int)
      requires Valid()
      modifies vram
      ensures vram[..] == Spec.Rectangle(old(vram[..]), width, height, x, y, w, h, r, g, b)
    {
      var dy := 0;
      while dy < h
        invariant 0 <= dy && (dy <= h || dy == 0)
        invariant vram[..] == Spec.Rectangle(old(vram[..]), width, height, x, y, w, dy, r, g, b)
      {
        ghost var rows := vram[..];
        var dx := 0;
        while dx < w
          invariant 0 <= dx && (dx <= w || dx == 0)
          invariant vram[..] == Spec.RowRun(rows, width, height, x, y + dy, dx, r, g, b)
        {
          WritePixel(x + dx, y + dy, r, g, b);
          dx := dx + 1;
        }
        dy := dy + 1;
      }
    }

    /**
     * `draw_line(x1, y1, x2, y2, r, g, b)`: Bresenham's loop along the longer
     * axis, then the final pixel.
     */
    method DrawLine(x1: int, y1: int, x2: int, y2: int, r: int, g: int, b: int)
      requires Valid()
      modifies vram
      ensures vram[..] == Spec.PlotAll(old(vram[..]), width, height, Spec.LinePoints(x1, y1, x2, y2), r, g, b)
    {
      var dx, dy := Spec.Abs(x2 - x1), Spec.Abs(y2 - y1);
      var sx := if x1 < x2 then 1 else -1;
      var sy := if y1 < y2 then 1 else -1;
      if dx > dy {
        LineAlongX(x1, y1, x2, sx, sy, dx, dy, r, g, b);
      } else {
        LineAlongY(x1, y1, y2, sx, sy, dx, dy, r, g, b);
      }
    }

    /** The x-major branch of `draw_line`; `err` holds twice the source's error term, which starts at `dx / 2.0`. */
    method LineAlongX(x1: int, y1: int, x2: int, sx: int, sy: int, dx: int, dy: int, r: int, g: int, b: int)
      requires Valid() && (sx == 1 || sx == -1) && Spec.Dist(x1, x2, sx) >= 0
      modifies vram
      ensures vram[..] == Spec.PlotAll(old(vram[..]), width, height, Spec.XMajor(x1, y1, x2, sx, sy, dx, dy, dx), r, g, b)
    {
      var x, y, err := x1, y1, dx;
      while x != x2
        invariant Spec.Dist(x, x2, sx) >= 0
        invariant Spec.PlotAll(vram[..], width, height, Spec.XMajor(x, y, x2, sx, sy, dx, dy, err), r, g, b)
          == Spec.PlotAll(old(vram[..]), width, height, Spec.XMajor(x1, y1, x2, sx, sy, dx, dy, dx), r, g, b)
        decreases Spec.Dist(x, x2, sx)
      {
        ghost var before, x0, y0, e0 := vram[..], x, y, err;
        WritePixel(x, y, r, g, b);
        err := err - 2 * dy;
        if err < 0 {
          y := y + sy;
          err := err + 2 * dx;
        }
        x := x + sx;
        Spec.XMajorPlot(before, width, height, x0, y0, x2, sx, sy, dx, dy, e0, x, y, err, r, g, b);
      }
      Spec.PlotOne(vram[..], width, height, x, y, r, g, b);
      WritePixel(x, y, r, g, b);
    }

    /** The y-major branch of `draw_line`; `err` starts at twice `dy / 2.0`. */
    method LineAlongY(x1: int, y1: int, y2: int, sx: int, sy: int, dx: int, dy: int, r: int, g: int, b: int)
      requires Valid() && (sy == 1 || sy == -1) && Spec.Dist(y1, y2, sy) >= 0
      modifies vram
      ensures vram[..] == Spec.PlotAll(old(vram[..]), width, height, Spec.YMajor(x1, y1, y2, sx, sy, dx, dy, dy), r, g, b)
    {
      var x, y, err := x1, y1, dy;
      while y != y2
        invariant Spec.Dist(y, y2, sy) >= 0
        invariant Spec.PlotAll(vram[..], width, height, Spec.YMajor(x, y, y2, sx, sy, dx, dy, err), r, g, b)
          == Spec.PlotAll(old(vram[..]), width, height, Spec.YMajor(x1, y1, y2, sx, sy, dx, dy, dy), r, g, b)
        decreases Spec.Dist(y, y2, sy)
      {
        ghost var before, x0, y0, e0 := vram[..], x, y, err;
        WritePixel(x, y, r, g, b);
        err := err - 2 * dx;
        if err < 0 {
          x := x + sx;
          err := err + 2 * dy;
        }
        y := y + sy;
        Spec.YMajorPlot(before, width, height, x0, y0, y2, sx, sy, dx, dy, e0, x, y, err, r, g, b);
      }
      Spec.PlotOne(vram[..], width, height, x, y, r, g, b);
      WritePixel(x, y, r, g, b);
    }

    // -------------------------------------------------------------------------
    // Opcode handlers

    /** `nop`. */
    method Nop()
      modifies this
      ensures vram == old(vram) && program == old(program)
      ensures State() == Spec.Nop(old(State()))
    {
      PC := PC + 1;
    }

    /** `setx`. */
    method Setx() returns (error: Option<Spec.Error>)
      requires Valid()
      modifies this
      ensures Valid() && vram == old(vram) && program == old(program)
      ensures After(error) == Spec.Setx(old(State()), program, width)
    {
      if PC + 1 >= |program| {
        return Some(Spec.IndexError);
      }
      currentX := program[PC + 1] % width;
      PC := PC + 2;
      return None;
    }

    /** `sety`. */
    method Sety() returns (error: Option<Spec.Error>)
      requires Valid()
      modifies this
      ensures Valid() && vram == old(vram) && program == old(program)
      ensures After(error) == Spec.Sety(old(State()), program, height)
    {
      if PC + 1 >= |program| {
        return Some(Spec.IndexError);
      }
      currentY := program[PC + 1] % height;
      PC := PC + 2;
      return None;
    }

    /** `setc`: the three operands are read and stored one after another. */
    method Setc() returns (error: Option<Spec.Error>)
      requires Valid()
      modifies this
      ensures Valid() && vram == old(vram) && program == old(program)
      ensures After(error) == Spec.Setc(old(State()), program)
    {
      ghost var s := State();
      if PC + 1 >= |program| {
        return Some(Spec.IndexError);
      }
      currentR := LowByte(program[PC + 1]);
      if PC + 2 >= |program| {
        assert State() == s.(r := currentR);
        assert Spec.Setc(s, program) == Spec.Raise(Spec.IndexError, State());
        return Some(Spec.IndexError);
      }
      currentG := LowByte(program[PC + 2]);
      if PC + 3 >= |program| {
        assert State() == s.(r := currentR, g := currentG);
        assert Spec.Setc(s, program) == Spec.Raise(Spec.IndexError, State());
        return Some(Spec.IndexError);
      }
      currentB := LowByte(program[PC + 3]);
      PC := PC + 4;
      assert State() == s.(r := currentR, g := currentG, b := currentB, pc := PC);
      assert Spec.Setc(s, program) == Spec.Next(State());
      return None;
    }

    /** `plot`. */
    method Plot()
      requires Valid()
      modifies this, vram
      ensures Valid() && vram == old(vram) && program == old(program)
      ensures State() == Spec.Plot(old(State()), width, height)
    {
      WritePixel(currentX, currentY, currentR, currentG, currentB);
      PC := PC + 1;
    }

    /** `clear`: vram is replaced by a new zeroed list; PC stays where it is. */
    method Clear()
      requires Valid()
      modifies this
      ensures Valid() && fresh(vram) && program == old(program)
      ensures State() == Spec.Clear(old(State()), width, height)
    {
      vram := new int[width * height * 3](_ => 0);
    }

    /** `line`. */
    method Line()
      modifies this
      ensures vram == old(vram) && program == old(program)
      ensures State() == Spec.Skip(old(State()))
    {
      PC := PC + 1;
    }

    /** `rect`. */
    method Rect()
      modifies this
      ensures vram == old(vram) && program == old(program)
      ensures State() == Spec.Skip(old(State()))
    {
      PC := PC + 1;
    }

    /** `halt`. */
    method Halt()
      modifies this
      ensures vram == old(vram) && program == old(program)
      ensures State() == Spec.Halt(old(State()))
    {
      PC := PC + 1;
      running := false;
    }

    // -------------------------------------------------------------------------
    // The execute loop

    /** The body of `load_program`'s loop: dispatch on `program[PC]`, raising on an unknown opcode. */
    method Step() returns (error: Option<Spec.Error>)
      requires Valid() && PC < |program|
      modifies this, vram
      ensures Valid() && (vram == old(vram) || fresh(vram)) && program == old(program)
      ensures After(error) == Spec.Step(old(State()), program, width, height)
    {
      var instruction := program[PC];
      error := None;
      if instruction == 0x00 {
        Nop();
      } else if instruction == 0x01 {
        error := Setx();
      } else if instruction == 0x02 {
        error := Sety();
      } else if instruction == 0x03 {
        error := Setc();
      } else if instruction == 0x04 {
        Plot();
      } else if instruction == 0x05 {
        Clear();
      } else if instruction == 0x06 {
        Line();
      } else if instruction == 0x07 {
        Rect();
      } else if instruction == 0xFF {
        Halt();
      } else {
        error := Some(Spec.UnknownInstruction(instruction));
      }
    }

    /**
     * `load_program(program)`: reset PC, cursor and colour, then execute
     * while running and PC is inside the program, for at most `fuel`
     * iterations.
     */
    method LoadProgram(program: seq<int>, fuel: nat) returns (outcome: Spec.Outcome)
      requires Valid()
      modifies this, vram
      ensures Valid() && this.program == program
      ensures Spec.Run(outcome, State()) == Spec.LoadProgram(old(vram[..]), program, width, height, fuel)
    {
      PC := 0;
      this.program := program;
      currentX, currentY := 0, 0;
      currentR, currentG, currentB := 255, 255, 255;
      running := true;
      assert State() == Spec.Start(old(vram[..]));
      outcome := Execute(fuel);
    }

    /** The `while self.running and self.PC < len(program)` loop of `load_program`, for at most `fuel` iterations. */
    method Execute(fuel: nat) returns (outcome: Spec.Outcome)
      requires Valid()
      modifies this, vram
      ensures Valid() && program == old(program)
      ensures Spec.Run(outcome, State()) == Spec.Loop(old(State()), program, width, height, fuel)
    {
      ghost var start := State();
      var remaining := fuel;
      while running && PC < |program|
        invariant Valid() && program == old(program)
        invariant vram == old(vram) || fresh(vram)
        invariant Spec.Loop(State(), program, width, height, remaining) == Spec.Loop(start, program, width, height, fuel)
        decreases remaining
      {
        if remaining == 0 {
          return Spec.OutOfFuel;
        }
        Spec.LoopStep(State(), program, width, height, remaining);
        var error := Step();
        if error.Some? {
          return Spec.Raised(error.value);
        }
        remaining := remaining - 1;
      }
      return Spec.Stopped;
    }
  }
}
