/**
 * The two instruction sets: the mnemonic tables the assembler encodes with
 * (assembler.py) and the opcode sets that the engines dispatch on (archi.py,
 * gpu.py) and that the demultiplexer tests membership in.
 */
module Isa {

  /** `Assembler.cpu_instructions`. */
  const CpuTable: map<string, int> :=
    map["NOP" := 0x00, "LDA" := 0x01, "ADD" := 0x02, "SUB" := 0x03,
        "STA" := 0x04, "JMP" := 0x05, "JZ" := 0x06, "HALT" := 0xFF]

  /** `Assembler.gpu_instructions`. */
  const GpuTable: map<string, int> :=
    map["GNOP" := 0x00, "SETX" := 0x01, "SETY" := 0x02, "SETC" := 0x03, "PLOT" := 0x04,
        "CLEAR" := 0x05, "LINE" := 0x06, "RECT" := 0x07, "GHALT" := 0xFF]

  /** The opcodes of the CPU: the keys of `CPU.instructions` and the values of `cpu_instructions`. */
  const CpuCodes: set<int> := {0x00, 0x01, 0x02, 0x03, 0x04, 0x05, 0x06, 0xFF}

  /** The opcodes of the GPU: the keys of `GPU.instructions` and the values of `gpu_instructions`. */
  const GpuCodes: set<int> := {0x00, 0x01, 0x02, 0x03, 0x04, 0x05, 0x06, 0x07, 0xFF}

  /** The opcode sets are exactly the values of the assembler's tables. */
  lemma CodesAreTableValues()
    ensures CpuTable.Values == CpuCodes
    ensures GpuTable.Values == GpuCodes
  {
    assert CpuTable["NOP"] == 0x00 && CpuTable["LDA"] == 0x01 && CpuTable["ADD"] == 0x02;
    assert CpuTable["SUB"] == 0x03 && CpuTable["STA"] == 0x04 && CpuTable["JMP"] == 0x05;
    assert CpuTable["JZ"] == 0x06 && CpuTable["HALT"] == 0xFF;
    assert GpuTable["GNOP"] == 0x00 && GpuTable["SETX"] == 0x01 && GpuTable["SETY"] == 0x02;
    assert GpuTable["SETC"] == 0x03 && GpuTable["PLOT"] == 0x04 && GpuTable["CLEAR"] == 0x05;
    assert GpuTable["LINE"] == 0x06 && GpuTable["RECT"] == 0x07 && GpuTable["GHALT"] == 0xFF;
  }

  /** The only code the GPU has and the CPU does not is RECT's 0x07. */
  lemma SharedCodes()
    ensures GpuCodes - CpuCodes == {0x07}
    ensures CpuCodes < GpuCodes
  {
  }
}
