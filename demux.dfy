/**
 * The demultiplexer of assembler.py's main block: it walks the assembled
 * bytes and routes each instruction, with its operands, to the CPU stream or
 * to the GPU stream. Membership in the CPU table is checked first, so every
 * opcode the two tables share goes to the CPU and only RECT (0x07) reaches
 * the GPU branch. `Split` is the walk as a function, `Demultiplex` the loop.
 */
module Demux {
  import Isa

  datatype Streams = Streams(cpu: seq<int>, gpu: seq<int>)

  /** Python's `s[a:b]` for `0 <= a <= b`: indices past the end are clamped. */
  function Slice(s: seq<int>, a: nat, b: nat): (r: seq<int>)
    requires a <= b
    ensures |r| <= b - a
    ensures b <= |s| ==> r == s[a..b]
    ensures a <= |s| <= b ==> r == s[a..]
    ensures |s| <= a ==> r == []
  {
    if a >= |s| then [] else if b >= |s| then s[a..] else s[a..b]
  }

  /** How many bytes the walk consumes for the opcode `op` (fewer at the end of the code). */
  function Width(op: int): nat {
    if op in Isa.CpuCodes then (if op == 0xFF || op == 0x00 then 1 else 2)
    else if op in Isa.GpuCodes then 3
    else 1
  }

  /** The bytes the step at `i` routes to each stream: the opcode and its operands, to the CPU first. */
  function Taken(code: seq<int>, i: nat): Streams
    requires i < |code|
  {
    var op := code[i];
    if op in Isa.CpuCodes then Streams(Slice(code, i, i + Width(op)), [])
    else if op in Isa.GpuCodes then Streams([], Slice(code, i, i + 3))
    else Streams([], [])
  }

  /** The streams produced from position `i` on. */
  function Split(code: seq<int>, i: nat): Streams
    decreases |code| - i
  {
    if i >= |code| then Streams([], [])
    else
      var rest := Split(code, i + Width(code[i]));
      Streams(Taken(code, i).cpu + rest.cpu, Taken(code, i).gpu + rest.gpu)
  }

  /**
   * The `while i < len(machine_code)` loop. `current_code` is always the list
   * of the branch being taken, so each branch appends to its own stream.
   */
  method Demultiplex(machineCode: seq<int>) returns (cpuCode: seq<int>, gpuCode: seq<int>)
    ensures Streams(cpuCode, gpuCode) == Split(machineCode, 0)
  {
    ghost var whole := Split(machineCode, 0);
    cpuCode, gpuCode := [], [];
    var i := 0;
    assert [] + whole.cpu == whole.cpu && [] + whole.gpu == whole.gpu;
    while i < |machineCode|
      invariant whole == Streams(cpuCode + Split(machineCode, i).cpu, gpuCode + Split(machineCode, i).gpu)
      decreases |machineCode| - i
    {
      var cpuBytes, gpuBytes, next := Route(machineCode, i);
      ghost var rest := Split(machineCode, next);
      assert Split(machineCode, i) == Streams(cpuBytes + rest.cpu, gpuBytes + rest.gpu);
      Associative(cpuCode, cpuBytes, rest.cpu);
      Associative(gpuCode, gpuBytes, rest.gpu);
      cpuCode, gpuCode, i := cpuCode + cpuBytes, gpuCode + gpuBytes, next;
    }
    SplitPastEnd(machineCode, i);
    assert cpuCode + [] == cpuCode && gpuCode + [] == gpuCode;
  }

  lemma Associative(a: seq<int>, b: seq<int>, c: seq<int>)
    ensures a + (b + c) == (a + b) + c
  {
  }

  /** One iteration of the loop: the bytes appended to each stream and the next position. */
  method Route(machineCode: seq<int>, i: nat) returns (cpuBytes: seq<int>, gpuBytes: seq<int>, next: nat)
    requires i < |machineCode|
    ensures next == i + Width(machineCode[i])
    ensures Streams(cpuBytes, gpuBytes) == Taken(machineCode, i)
  {
    cpuBytes, gpuBytes := [], [];
    var instruction := machineCode[i];
    if instruction in Isa.CpuCodes {
      cpuBytes, next := RouteCpu(machineCode, i);
    } else if instruction in Isa.GpuCodes {
      gpuBytes, next := RouteGpu(machineCode, i);
    } else {
      next := i + 1;
    }
  }

  /** The CPU branch: the opcode, then its operand unless it is NOP or HALT. */
  method RouteCpu(machineCode: seq<int>, i: nat) returns (bytes: seq<int>, next: nat)
    requires i < |machineCode| && machineCode[i] in Isa.CpuCodes
    ensures next == i + Width(machineCode[i])
    ensures bytes == Slice(machineCode, i, next)
  {
    var instruction := machineCode[i];
    bytes, next := [instruction], i;
    if instruction != 0xFF && instruction != 0x00 {
      next := next + 1;
      if next < |machineCode| {
        bytes := bytes + [machineCode[next]];
      }
    }
    next := next + 1;
  }

  /**
   * The GPU branch, which only RECT reaches: the opcode and the next two
   * bytes. The LINE branch and the one-operand branch are dead code.
   */
  method RouteGpu(machineCode: seq<int>, i: nat) returns (bytes: seq<int>, next: nat)
    requires i < |machineCode| && machineCode[i] in Isa.GpuCodes && machineCode[i] !in Isa.CpuCodes
    ensures next == i + 3 == i + Width(machineCode[i])
    ensures bytes == Slice(machineCode, i, next)
  {
    SplitNext(machineCode, i);
    var instruction := machineCode[i];
    bytes, next := [instruction], i;
    if instruction == 0x07 {
      next := next + 1;
      bytes := bytes + Slice(machineCode, next, next + 2);
      next := next + 1;
    } else if instruction == 0x06 {
      assert false;
    } else if instruction !in {0x00, 0xFF, 0x04, 0x05} {
      assert false;
    }
    next := next + 1;
    StepBytes(machineCode, i, 3);
  }

  // ---------------------------------------------------------------------------
  // Properties of the routing

  /** `a` is a subsequence of `b`: its elements occur in `b` in the same order. */
  predicate IsSubsequence(a: seq<int>, b: seq<int>)
    decreases |b|
  {
    a == [] || (b != [] && ((a[0] == b[0] && IsSubsequence(a[1..], b[1..])) || IsSubsequence(a, b[1..])))
  }

  lemma {:induction false} SubsequenceOfSelf(a: seq<int>)
    ensures IsSubsequence(a, a)
    decreases |a|
  {
    if a != [] {
      SubsequenceOfSelf(a[1..]);
    }
  }

  lemma {:induction false} SubsequenceConcat(a: seq<int>, b: seq<int>, c: seq<int>, d: seq<int>)
    requires IsSubsequence(a, b) && IsSubsequence(c, d)
    ensures IsSubsequence(a + c, b + d)
    decreases |b|
  {
    if a == [] {
      assert a + c == c;
      SubsequenceSuffix(c, b, d);
    } else if a[0] == b[0] && IsSubsequence(a[1..], b[1..]) {
      SubsequenceConcat(a[1..], b[1..], c, d);
      assert (a + c)[1..] == a[1..] + c && (b + d)[1..] == b[1..] + d;
    } else {
      SubsequenceConcat(a, b[1..], c, d);
      assert (b + d)[1..] == b[1..] + d;
    }
  }

  /** Anything in front of `d` leaves a subsequence of `d` a subsequence. */
  lemma {:induction false} SubsequenceSuffix(c: seq<int>, b: seq<int>, d: seq<int>)
    requires IsSubsequence(c, d)
    ensures IsSubsequence(c, b + d)
    decreases |b|
  {
    if b != [] {
      SubsequenceSuffix(c, b[1..], d);
      assert (b + d)[1..] == b[1..] + d;
    } else {
      assert b + d == d;
    }
  }

  /** The bytes routed from one step: the opcode and its operands, the first bytes of what the step consumes. */
  lemma StepBytes(code: seq<int>, i: nat, k: nat)
    requires i < |code| && 1 <= k
    ensures [code[i]] + Slice(code, i + 1, i + k) == Slice(code, i, i + k)
  {
  }

  /** The end of a step, clamped to the end of the code. */
  function Next(code: seq<int>, i: nat): nat
    requires i < |code|
  {
    if i + Width(code[i]) <= |code| then i + Width(code[i]) else |code|
  }

  lemma SplitPastEnd(code: seq<int>, i: nat)
    requires i >= |code|
    ensures Split(code, i) == Streams([], [])
  {
  }

  /** The bytes from `i` on are those of one step followed by those after it. */
  lemma StepThenRest(code: seq<int>, i: nat)
    requires i < |code|
    ensures code[i..] == Slice(code, i, i + Width(code[i])) + Rest(code, i)
  {
    assert code[i..] == code[i..Next(code, i)] + code[Next(code, i)..];
  }

  /** The bytes after one step, none when it reaches past the end. */
  function Rest(code: seq<int>, i: nat): seq<int>
    requires i < |code|
  {
    if i + Width(code[i]) <= |code| then code[i + Width(code[i])..] else []
  }

  /** Taking all of a step's bytes, or none, in front of a subsequence of the rest gives a subsequence. */
  lemma StepSubsequence(taken: seq<int>, head: seq<int>, x: seq<int>, rest: seq<int>)
    requires taken == [] || taken == head
    requires IsSubsequence(x, rest)
    ensures IsSubsequence(taken + x, head + rest)
  {
    if taken == [] {
      assert taken + x == x;
      SubsequenceSuffix(x, head, rest);
    } else {
      SubsequenceOfSelf(head);
      SubsequenceConcat(head, head, x, rest);
    }
  }

  /** A step routes all of its bytes to one stream, or drops them. */
  lemma TakenAllOrNothing(code: seq<int>, i: nat)
    requires i < |code|
    ensures var head := Slice(code, i, i + Width(code[i]));
      && (Taken(code, i).cpu == [] || Taken(code, i).cpu == head)
      && (Taken(code, i).gpu == [] || Taken(code, i).gpu == head)
  {
  }

  /** What the walk routes after a step comes from the bytes after it. */
  lemma RestSubsequences(code: seq<int>, i: nat)
    requires i < |code|
    requires i + Width(code[i]) <= |code| ==>
      IsSubsequence(Split(code, i + Width(code[i])).cpu, code[i + Width(code[i])..])
      && IsSubsequence(Split(code, i + Width(code[i])).gpu, code[i + Width(code[i])..])
    ensures IsSubsequence(Split(code, i + Width(code[i])).cpu, Rest(code, i))
    ensures IsSubsequence(Split(code, i + Width(code[i])).gpu, Rest(code, i))
  {
    if i + Width(code[i]) > |code| {
      SplitPastEnd(code, i + Width(code[i]));
      assert IsSubsequence([], []);
    }
  }

  /** Both streams are subsequences of the bytes from `i` on, in order. */
  lemma {:induction false} SplitSubsequences(code: seq<int>, i: nat)
    requires i <= |code|
    ensures IsSubsequence(Split(code, i).cpu, code[i..])
    ensures IsSubsequence(Split(code, i).gpu, code[i..])
    decreases |code| - i
  {
    if i < |code| {
      var j := i + Width(code[i]);
      if j <= |code| {
        SplitSubsequences(code, j);
      }
      RestSubsequences(code, i);
      TakenAllOrNothing(code, i);
      StepThenRest(code, i);
      var rest, t := Split(code, j), Taken(code, i);
      StepSubsequence(t.cpu, Slice(code, i, j), rest.cpu, Rest(code, i));
      StepSubsequence(t.gpu, Slice(code, i, j), rest.gpu, Rest(code, i));
    }
  }

  /** Every opcode the walk meets from `i` on is in one of the two tables. */
  predicate AllRouted(code: seq<int>, i: nat)
    decreases |code| - i
  {
    i >= |code| || (code[i] in Isa.GpuCodes && AllRouted(code, i + Width(code[i])))
  }

  /**
   * Together the streams hold at most as many bytes as the code; exactly as
   * many when no opcode the walk meets is outside both tables, since such a
   * byte is dropped.
   */
  lemma {:induction false} SplitLength(code: seq<int>, i: nat)
    requires i <= |code|
    ensures |Split(code, i).cpu| + |Split(code, i).gpu| <= |code| - i
    ensures AllRouted(code, i) ==> |Split(code, i).cpu| + |Split(code, i).gpu| == |code| - i
    ensures !AllRouted(code, i) ==> |Split(code, i).cpu| + |Split(code, i).gpu| < |code| - i
    decreases |code| - i
  {
    if i < |code| {
      var op := code[i];
      var j := i + Width(op);
      Isa.SharedCodes();
      if j <= |code| {
        SplitLength(code, j);
      } else {
        SplitPastEnd(code, j);
        assert AllRouted(code, j);
      }
      if op !in Isa.GpuCodes {
        assert |Split(code, i).cpu| + |Split(code, i).gpu| <= |code| - j;
      }
    }
  }

  /** The walk meets RECT, the one opcode that goes to the GPU. */
  predicate MeetsRect(code: seq<int>, i: nat)
    decreases |code| - i
  {
    i < |code| && (code[i] == 0x07 || MeetsRect(code, i + Width(code[i])))
  }

  /**
   * The GPU stream is empty exactly when the walk meets no RECT, and
   * otherwise starts with one: a program of CPU opcodes yields no GPU code.
   */
  lemma {:induction false} GpuStreamNeedsRect(code: seq<int>, i: nat)
    ensures Split(code, i).gpu == [] <==> !MeetsRect(code, i)
    ensures Split(code, i).gpu != [] ==> Split(code, i).gpu[0] == 0x07
    decreases |code| - i
  {
    if i < |code| {
      SplitNext(code, i);
      Isa.SharedCodes();
      GpuStreamNeedsRect(code, i + Width(code[i]));
    }
  }

  /**
   * A walk that meets only opcodes of the CPU table (every opcode in a table,
   * and no RECT) routes every byte to the CPU stream, in order, and none to
   * the GPU stream.
   */
  lemma {:induction false} CpuOnly(code: seq<int>, i: nat)
    requires i <= |code|
    requires AllRouted(code, i) && !MeetsRect(code, i)
    ensures Split(code, i) == Streams(code[i..], [])
    decreases |code| - i
  {
    if i < |code| {
      var j := i + Width(code[i]);
      SplitNext(code, i);
      if j <= |code| {
        CpuOnly(code, j);
      } else {
        SplitPastEnd(code, j);
      }
      StepThenRest(code, i);
    }
  }

  lemma SplitNext(code: seq<int>, i: nat)
    requires i < |code|
    ensures code[i] in Isa.GpuCodes - Isa.CpuCodes <==> code[i] == 0x07
  {
    Isa.SharedCodes();
  }

  /** Every opcode of the CPU table, shared ones included, is routed to the CPU stream with its operand. */
  lemma CpuFirst(code: seq<int>, i: nat)
    requires i < |code| && code[i] in Isa.CpuCodes
    ensures Split(code, i).cpu == Slice(code, i, i + Width(code[i])) + Split(code, i + Width(code[i])).cpu
    ensures Split(code, i).gpu == Split(code, i + Width(code[i])).gpu
  {
    StepBytes(code, i, Width(code[i]));
  }

  /** RECT goes to the GPU stream with up to two operands; the walk skips them. */
  lemma RectToGpu(code: seq<int>, i: nat)
    requires i < |code| && code[i] == 0x07
    ensures Split(code, i).gpu == Slice(code, i, i + 3) + Split(code, i + 3).gpu
    ensures Split(code, i).cpu == Split(code, i + 3).cpu
  {
    StepBytes(code, i, 3);
  }
}
