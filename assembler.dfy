/**
 * The declarations the assembler's passes share: the size constants, the
 * operand-type and era enumerations, the record types for labels, macros,
 * commands, operands and source lines, and the machine word.
 *
 * The header that declares them is not part of this model. The constant
 * values, the enumeration codes and the bit layout of instruction and
 * register words below are assumptions, chosen to fit the imaginary
 * machine the assembler targets (14-bit words, registers r0..r7, code
 * loaded at address 100); every one is named here so that it can be
 * changed in one place.
 */
module Assembler {
  import opened CText

  datatype Option<+T> = None | Some(value: T) {
    function GetOr(default: T): T {
      if Some? then value else default
    }
  }

  function Min(a: int, b: int): int {
    if a <= b then a else b
  }

  function Pow2(n: nat): (r: nat)
    ensures r >= 1
  {
    if n == 0 then 1 else 2 * Pow2(n - 1)
  }

  lemma {:induction false} Pow2Add(a: nat, b: nat)
    ensures Pow2(a + b) == Pow2(a) * Pow2(b)
    decreases a
  {
    if a > 0 {
      Pow2Add(a - 1, b);
    }
  }

  lemma {:induction false} Pow2Mono(a: nat, b: nat)
    requires a <= b
    ensures Pow2(a) <= Pow2(b)
    decreases b - a
  {
    if a < b {
      Pow2Mono(a + 1, b);
    }
  }

  /** 1 << 30, the largest power of two a 32-bit `int` shift can produce without overflow. */
  lemma {:induction false} Pow2Thirty()
    ensures Pow2(30) == 0x4000_0000
  {
    Pow2Add(15, 15);
    assert Pow2(15) == 0x8000;
  }

  // ---------------------------------------------------------------------
  // Constants (assumed values)

  /** Bits in a C `int`: sizeof(int) * BYTE_SIZE. */
  const INT_BITS: nat := 32

  /** Bits in a machine word; the mask that keeps them needs 2 <= MEMORY_WORD_LENGTH <= INT_BITS. */
  const MEMORY_WORD_LENGTH: nat := 14

  /** Capacity of the memory image and of the data array. */
  const MAX_DATA_NUM: nat := 1000

  /** Address of the first word of the image. */
  const FIRST_ADDRESS: int := 100

  const MAX_LABEL_LENGTH: nat := 30

  /** Registers are r0 .. r<MAX_REGISTER_DIGIT>. */
  const MAX_REGISTER_DIGIT: nat := 7

  /** Number of distinct machine words, 2^MEMORY_WORD_LENGTH. */
  const WORD_RANGE: nat := Pow2(MEMORY_WORD_LENGTH)

  /** Number of distinct payloads above the two era bits. */
  const VALUE_RANGE: nat := Pow2(MEMORY_WORD_LENGTH - 2)

  /**
   * `mask & x` where mask is `~0` shifted right until MEMORY_WORD_LENGTH
   * one-bits remain: the low bits of x in two's complement.
   */
  function Mask(x: int): (r: int)
    ensures 0 <= r < WORD_RANGE
    ensures (x - r) % WORD_RANGE == 0
    ensures 0 <= x < WORD_RANGE ==> r == x
    ensures x < 0 <= x + WORD_RANGE ==> r == x + WORD_RANGE
  {
    x % WORD_RANGE
  }

  // ---------------------------------------------------------------------
  // Enumerations

  /** The relocation tag in the two low bits of a word. */
  datatype Era = Absolute | External | Relocatable

  /** Assumed codes: ABSOLUTE = 0, EXTENAL = 1, RELOCATABLE = 2. */
  function EraCode(e: Era): (c: nat)
    ensures c < 4
  {
    match e
    case Absolute => 0
    case External => 1
    case Relocatable => 2
  }

  /** The addressing mode of an operand; Invalid marks an absent operand. */
  datatype OpType = Number | Label | Index | Register | Invalid

  /** NUMBER = 0, LABEL = 1, INDEX = 2, REGISTER = 3; INVALID lies outside them. */
  function OpTypeCode(t: OpType): int {
    match t
    case Number => 0
    case Label => 1
    case Index => 2
    case Register => 3
    case Invalid => -1
  }

  // ---------------------------------------------------------------------
  // Records

  /** An operand: its mode, its text (NULL for some modes), its numeric value, its emitted address and, for INDEX, its index. */
  datatype OperandInfo = OperandInfo(value: int, str: Option<CStr>, opType: OpType, address: int, indexVal: int)

  /** An entry of the command table; the table ends at an entry without a name. */
  datatype Command = Command(name: Option<CStr>, opcode: int, numOfParams: int)

  /** A parsed source line; `cmd` is None when the line holds no instruction. */
  datatype LineInfo = LineInfo(lineNum: int, lineStr: CStr, isError: bool, cmd: Option<Command>,
                               op1: OperandInfo, op2: OperandInfo)

  datatype LabelInfo = LabelInfo(name: CStr, address: int, isExtern: bool, isData: bool)

  datatype Macro = Macro(name: CStr, value: int)

  // ---------------------------------------------------------------------
  // Machine words

  /** The bits above the era: one view per word role (the C union). */
  datatype ValueBits =
    | Value(value: int)
    | CmdBits(dest: int, src: int, opcode: int)
    | RegBits(destBits: int, srcBits: int)

  datatype MemoryWord = MemoryWord(era: Era, valueBits: ValueBits)

  /**
   * The union's `value` member: the payload as one number. For instruction
   * and register words this assumes the layout dest:2, src:2, opcode:4 and
   * destBits:3, srcBits:3, from the least significant bit up; each field
   * keeps only the bits of its width.
   */
  function PackedValue(b: ValueBits): (r: int)
    ensures b.Value? ==> r == b.value
    ensures b.CmdBits? ==> 0 <= r < 256 && r % 4 == b.dest % 4 && r / 4 % 4 == b.src % 4 && r / 16 == b.opcode % 16
    ensures b.RegBits? ==> 0 <= r < 64 && r % 8 == b.destBits % 8 && r / 8 == b.srcBits % 8
  {
    match b
    case Value(v) => v
    case CmdBits(dest, src, opcode) => dest % 4 + 4 * (src % 4) + 16 * (opcode % 16)
    case RegBits(destBits, srcBits) => destBits % 8 + 8 * (srcBits % 8)
  }
}
