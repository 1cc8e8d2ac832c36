/**
 * The fixed data of the CHIP-8 interpreter: sizes and addresses, the built-in
 * hexadecimal font, the shape of the machine state, the fields of an
 * instruction word and the two-level dispatch tables that map an instruction
 * word to its handler.
 */
module Chip8 {

  const StartAddress := 0x200
  const MemSize := 4096
  const FontsetSize := 80
  const FontsetStartAddress := 0x50
  const VideoWidth := 64
  const VideoHeight := 32
  const VideoSize := VideoWidth * VideoHeight
  const StackSize := 16
  const NumRegisters := 16
  const NumKeys := 16

  /** The flag register VF. */
  const FlagRegister := 0xF

  type Byte = x: int | 0 <= x < 0x100
  type Word16 = x: int | 0 <= x < 0x1_0000
  type Word32 = x: int | 0 <= x < 0x1_0000_0000
  type Nibble = x: int | 0 <= x < 0x10

  /** An "on" pixel has every bit set; an "off" pixel is zero. */
  const PixelOn: Word32 := 0xFFFF_FFFF

  datatype Option<T> = None | Some(value: T)

  /** Truncation of an integer to an unsigned 8-bit value. */
  function Wrap8(v: int): Byte { v % 0x100 }

  /** Truncation of an integer to an unsigned 16-bit value. */
  function Wrap16(v: int): Word16 { v % 0x1_0000 }

  /** Sixteen glyphs, 0 to F, five rows of one byte each. */
  const Fontset: seq<Byte> :=
    [0xF0, 0x90, 0x90, 0x90, 0xF0] + // 0
    [0x20, 0x60, 0x20, 0x20, 0x70] + // 1
    [0xF0, 0x10, 0xF0, 0x80, 0xF0] + // 2
    [0xF0, 0x10, 0xF0, 0x10, 0xF0] + // 3
    [0x90, 0x90, 0xF0, 0x10, 0x10] + // 4
    [0xF0, 0x80, 0xF0, 0x10, 0xF0] + // 5
    [0xF0, 0x80, 0xF0, 0x90, 0xF0] + // 6
    [0xF0, 0x10, 0x20, 0x40, 0x40] + // 7
    [0xF0, 0x90, 0xF0, 0x90, 0xF0] + // 8
    [0xF0, 0x90, 0xF0, 0x10, 0xF0] + // 9
    [0xF0, 0x90, 0xF0, 0x90, 0x90] + // A
    [0xE0, 0x90, 0xE0, 0x90, 0xE0] + // B
    [0xF0, 0x80, 0x80, 0x80, 0xF0] + // C
    [0xE0, 0x90, 0x90, 0x90, 0xE0] + // D
    [0xF0, 0x80, 0xF0, 0x80, 0xF0] + // E
    [0xF0, 0x80, 0xF0, 0x80, 0x80]   // F

  /**
   * The machine state as a value: memory, the registers V0..VF, the index
   * register, the program counter, the return stack and its pointer, the two
   * timers, the framebuffer (row-major, one 32-bit word per pixel) and the
   * keypad (a key is pressed when its entry is non-zero).
   */
  datatype Machine = Machine(
    memory: seq<Byte>,
    registers: seq<Byte>,
    index: Word16,
    pc: Word16,
    stack: seq<Word16>,
    stackPointer: Byte,
    delayTimer: Byte,
    soundTimer: Byte,
    video: seq<Word32>,
    keypad: seq<Byte>)

  predicate WellSized(m: Machine) {
    && |m.memory| == MemSize
    && |m.registers| == NumRegisters
    && |m.stack| == StackSize
    && |m.video| == VideoSize
    && |m.keypad| == NumKeys
  }

  /** A machine whose buffers have the declared fixed sizes. */
  type State = m: Machine | WellSized(m)
    witness Machine(seq(4096, _ => 0), seq(16, _ => 0), 0, 0, seq(16, _ => 0), 0, 0, 0,
                    seq(2048, _ => 0), seq(16, _ => 0))

  // Fields of an instruction word, written as the masks and shifts of the
  // source: (op & 0x0F00) >> 8, (op & 0x00F0) >> 4, op & 0x000F, op & 0x00FF
  // and op & 0x0FFF.

  function X(op: Word16): Nibble { (op / 0x100) % 0x10 }
  function Y(op: Word16): Nibble { (op / 0x10) % 0x10 }
  function N(op: Word16): Nibble { op % 0x10 }
  function NN(op: Word16): Byte { op % 0x100 }
  function NNN(op: Word16): Word16 { op % 0x1000 }
  function HighNibble(op: Word16): Nibble { op / 0x1000 }

  /** The instruction handlers; HNull is the handler that does nothing. */
  datatype Handler =
    | H00E0 | H00EE | H1nnn | H2nnn | H3xnn | H4xnn | H5xy0 | H6xnn | H7xnn
    | H8xy0 | H8xy1 | H8xy2 | H8xy3 | H8xy4 | H8xy5 | H8xy6 | H8xy7 | H8xyE
    | H9xy0 | HAnnn | HBnnn | HCxnn | HDxyn | HEx9E | HExA1
    | HFx07 | HFx0A | HFx15 | HFx18 | HFx1E | HFx29 | HFx33 | HFx55 | HFx65
    | HNull

  /** An entry of the primary table: a handler, or one of the four secondary tables. */
  datatype Entry = Direct(handler: Handler) | Table0 | Table8 | TableE | TableF

  /** The primary table, indexed by the high nibble. */
  const PrimaryTable: seq<Entry> := [
    Table0, Direct(H1nnn), Direct(H2nnn), Direct(H3xnn),
    Direct(H4xnn), Direct(H5xy0), Direct(H6xnn), Direct(H7xnn),
    Table8, Direct(H9xy0), Direct(HAnnn), Direct(HBnnn),
    Direct(HCxnn), Direct(HDxyn), TableE, TableF]

  /** The secondary tables: first every slot is HNull, then the listed slots are assigned. */
  function Table0Entries(): seq<Handler> {
    seq(0xE + 1, _ => HNull)[0x0 := H00E0][0xE := H00EE]
  }

  function Table8Entries(): seq<Handler> {
    seq(0xE + 1, _ => HNull)[0x0 := H8xy0][0x1 := H8xy1][0x2 := H8xy2][0x3 := H8xy3]
    [0x4 := H8xy4][0x5 := H8xy5][0x6 := H8xy6][0x7 := H8xy7][0xE := H8xyE]
  }

  function TableEEntries(): seq<Handler> {
    seq(0xE + 1, _ => HNull)[0x1 := HExA1][0xE := HEx9E]
  }

  function TableFEntries(): seq<Handler> {
    seq(0x65 + 1, _ => HNull)[0x07 := HFx07][0x0A := HFx0A][0x15 := HFx15][0x18 := HFx18]
    [0x1E := HFx1E][0x29 := HFx29][0x33 := HFx33][0x55 := HFx55][0x65 := HFx65]
  }

  /** The outcome of dispatch: a handler, or a read past the end of a 15-entry table. */
  datatype Dispatched = Run(handler: Handler) | Overrun

  function Lookup(table: seq<Handler>, i: nat): Dispatched {
    if i < |table| then Run(table[i]) else Overrun
  }

  /**
   * Two-level dispatch: the high nibble selects a primary entry; groups 0, 8
   * and E then index their table with the low nibble, and group F indexes its
   * table with the low byte, clamped to slot 0 above 0x65.
   */
  function Dispatch(op: Word16): Dispatched {
    match PrimaryTable[HighNibble(op)]
    case Direct(h) => Run(h)
    case Table0 => Lookup(Table0Entries(), N(op))
    case Table8 => Lookup(Table8Entries(), N(op))
    case TableE => Lookup(TableEEntries(), N(op))
    case TableF =>
      Run(TableFEntries()[if NN(op) > 0x65 then 0 else NN(op)])
  }

  /** The declared sizes: the font lies wholly below the program area, which ends at the top of memory. */
  lemma MemoryLayout()
    ensures |Fontset| == FontsetSize
    ensures 0 < FontsetStartAddress && FontsetStartAddress + FontsetSize <= StartAddress < MemSize
    ensures VideoSize == 2048
  {
  }

  /** A low nibble of 0xF in groups 0, 8 and E reads past the end of its 15-entry table, and nothing else does. */
  lemma OverrunExactlyOnLowNibbleF(op: Word16)
    ensures Dispatch(op) == Overrun <==> HighNibble(op) in {0x0, 0x8, 0xE} && N(op) == 0xF
  {
  }

  /** Groups 0 and E look only at the low nibble. */
  lemma LowNibbleDispatch(op: Word16)
    ensures HighNibble(op) == 0x0 && N(op) == 0x0 ==> Dispatch(op) == Run(H00E0)
    ensures HighNibble(op) == 0x0 && N(op) == 0xE ==> Dispatch(op) == Run(H00EE)
    ensures HighNibble(op) == 0xE && N(op) == 0xE ==> Dispatch(op) == Run(HEx9E)
    ensures HighNibble(op) == 0xE && N(op) == 0x1 ==> Dispatch(op) == Run(HExA1)
  {
  }

  /** Group F with a low byte above 0x65 resolves to slot 0, which holds the null handler. */
  lemma TableFClampsToNull(op: Word16)
    requires HighNibble(op) == 0xF && NN(op) > 0x65
    ensures Dispatch(op) == Run(HNull)
  {
  }

  /** The instruction words that no assignment in the tables covers. */
  predicate Unassigned(op: Word16) {
    match HighNibble(op)
    case 0x0 => N(op) !in {0x0, 0xE, 0xF}
    case 0x8 => 0x8 <= N(op) <= 0xD
    case 0xE => N(op) !in {0x1, 0xE, 0xF}
    case 0xF => NN(op) !in {0x07, 0x0A, 0x15, 0x18, 0x1E, 0x29, 0x33, 0x55, 0x65}
    case _ => false
  }

  /** Dispatch reaches the null handler exactly for the unassigned words. */
  lemma NullExactlyWhenUnassigned(op: Word16)
    ensures Dispatch(op) == Run(HNull) <==> Unassigned(op)
  {
  }
}
