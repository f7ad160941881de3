/**
 * The main block of assembler.py, followed for two programs: assemble the
 * source, then split the bytes into the CPU and GPU streams that the block
 * loads into a fresh CPU and a fresh GPU when they are not empty.
 */
module Pipeline {
  import opened Builtins
  import AssemblerSpec
  import Demux

  /**
   * `.CPU / LDA 5 / STA 0x20 / HALT`: every byte goes to the CPU and the GPU
   * stream stays empty, so only the CPU runs; `CpuSpec.StoreFiveProgram` is
   * that run.
   */
  lemma StoreFiveEndToEnd()
    ensures AssemblerSpec.Assemble(map[], ".CPU\nLDA 5\nSTA 0x20\nHALT").result == Ok([0x01, 0x05, 0x04, 0x20, 0xFF])
    ensures Demux.Split([0x01, 0x05, 0x04, 0x20, 0xFF], 0) == Demux.Streams([0x01, 0x05, 0x04, 0x20, 0xFF], [])
  {
    AssemblerSpec.StoreFiveAssembles();
    StoreFiveStreams([0x01, 0x05, 0x04, 0x20, 0xFF]);
  }

  lemma StoreFiveStreams(code: seq<int>)
    requires code == [0x01, 0x05, 0x04, 0x20, 0xFF]
    ensures Demux.Split(code, 0) == Demux.Streams(code, [])
  {
    assert Demux.AllRouted(code, 5) && !Demux.MeetsRect(code, 5);
    assert Demux.AllRouted(code, 4) && !Demux.MeetsRect(code, 4);
    assert Demux.AllRouted(code, 2) && !Demux.MeetsRect(code, 2);
    assert Demux.AllRouted(code, 0) && !Demux.MeetsRect(code, 0);
    Demux.CpuOnly(code, 0);
    assert code[0..] == code;
  }

  /**
   * `NOP 7` assembles to 00 07, and the walk then reads the operand 7 as
   * RECT's opcode: the CPU stream gets the NOP and the GPU stream gets 0x07.
   */
  lemma NopSevenReachesGpu()
    ensures AssemblerSpec.Assemble(map[], "NOP 7").result == Ok([0x00, 0x07])
    ensures Demux.Split([0x00, 0x07], 0) == Demux.Streams([0x00], [0x07])
  {
    AssemblerSpec.NopWithOperand();
    NopSevenStreams([0x00, 0x07]);
  }

  lemma NopSevenStreams(code: seq<int>)
    requires code == [0x00, 0x07]
    ensures Demux.Split(code, 0) == Demux.Streams([0x00], [0x07])
  {
    Demux.RectToGpu(code, 1);
    assert Demux.Split(code, 4) == Demux.Streams([], []);
    assert Demux.Slice(code, 1, 4) == [0x07];
    Demux.CpuFirst(code, 0);
    assert Demux.Slice(code, 0, 1) == [0x00];
  }
}
