/**
 * One function per instruction handler: the effect of the handler on the
 * machine state, given the instruction word. Where a handler writes VF and
 * then reads a register, the function is written as the same sequence of
 * writes, so that x = F or y = F sees the new VF exactly as the handler does.
 */
module Opcodes {
  import opened Chip8

  function SetRegister(m: State, x: Nibble, v: Byte): State {
    m.(registers := m.registers[x := v])
  }

  /** The program counter after skipping one instruction (16-bit addition). */
  function Skip(m: State): State {
    m.(pc := Wrap16(m.pc + 2))
  }

  function Flag(b: bool): Byte { if b then 1 else 0 }

  function Pow2(k: nat): (p: nat)
    ensures p >= 1
  {
    if k == 0 then 1 else 2 * Pow2(k - 1)
  }

  /** Combines the low `width` bits of a and b with `op`, bit by bit from the lowest. */
  function Bitwise(op: (bool, bool) -> bool, a: nat, b: nat, width: nat): (r: nat)
    ensures r < Pow2(width)
  {
    if width == 0 then 0
    else 2 * Bitwise(op, a / 2, b / 2, width - 1) + (if op(a % 2 == 1, b % 2 == 1) then 1 else 0)
  }

  function OrBit(p: bool, q: bool): bool { p || q }
  function AndBit(p: bool, q: bool): bool { p && q }
  function XorBit(p: bool, q: bool): bool { p != q }

  /** The 8-bit operators |, & and ^. */
  function Or8(a: Byte, b: Byte): Byte { assert Pow2(8) == 256; Bitwise(OrBit, a, b, 8) }
  function And8(a: Byte, b: Byte): Byte { assert Pow2(8) == 256; Bitwise(AndBit, a, b, 8) }
  function Xor8(a: Byte, b: Byte): Byte { assert Pow2(8) == 256; Bitwise(XorBit, a, b, 8) }

  /** Every bit set among the low `width` bits of v is also set in mask. */
  predicate BitsWithin(v: nat, mask: nat, width: nat) {
    width == 0 || ((v % 2 == 1 ==> mask % 2 == 1) && BitsWithin(v / 2, mask / 2, width - 1))
  }

  // ---- 0 group, jumps and calls -------------------------------------------

  function Op00E0(m: State): State {
    m.(video := seq(VideoSize, _ => 0))
  }

  function Op00EE(m: State): State
    requires m.stackPointer <= StackSize
  {
    if m.stackPointer == 0 then m
    else
      var sp := m.stackPointer - 1;
      m.(stackPointer := sp, pc := m.stack[sp])
  }

  function Op1nnn(m: State, op: Word16): State {
    m.(pc := NNN(op))
  }

  function Op2nnn(m: State, op: Word16): State {
    if m.stackPointer >= StackSize then m
    else m.(stack := m.stack[m.stackPointer := m.pc],
            stackPointer := m.stackPointer + 1,
            pc := NNN(op))
  }

  // ---- conditional skips ----------------------------------------------------

  function Op3xnn(m: State, op: Word16): State {
    if m.registers[X(op)] == NN(op) then Skip(m) else m
  }

  function Op4xnn(m: State, op: Word16): State {
    if m.registers[X(op)] != NN(op) then Skip(m) else m
  }

  function Op5xy0(m: State, op: Word16): State {
    if m.registers[X(op)] == m.registers[Y(op)] then Skip(m) else m
  }

  function Op9xy0(m: State, op: Word16): State {
    if m.registers[X(op)] != m.registers[Y(op)] then Skip(m) else m
  }

  // ---- register arithmetic --------------------------------------------------

  function Op6xnn(m: State, op: Word16): State {
    SetRegister(m, X(op), NN(op))
  }

  function Op7xnn(m: State, op: Word16): State {
    SetRegister(m, X(op), Wrap8(m.registers[X(op)] as int + NN(op)))
  }

  function Op8xy0(m: State, op: Word16): State {
    SetRegister(m, X(op), m.registers[Y(op)])
  }

  function Op8xy1(m: State, op: Word16): State {
    SetRegister(m, X(op), Or8(m.registers[X(op)], m.registers[Y(op)]))
  }

  function Op8xy2(m: State, op: Word16): State {
    SetRegister(m, X(op), And8(m.registers[X(op)], m.registers[Y(op)]))
  }

  function Op8xy3(m: State, op: Word16): State {
    SetRegister(m, X(op), Xor8(m.registers[X(op)], m.registers[Y(op)]))
  }

  /** The sum is taken first, then VF is written, then Vx. */
  function Op8xy4(m: State, op: Word16): State {
    var x, y := X(op), Y(op);
    var sum := m.registers[x] as int + m.registers[y];
    var m1 := SetRegister(m, FlagRegister, Flag(sum > 0xFF));
    SetRegister(m1, x, Wrap8(sum))
  }

  /** VF is written first; Vx - Vy is then taken from the updated registers. */
  function Op8xy5(m: State, op: Word16): State {
    var x, y := X(op), Y(op);
    var m1 := SetRegister(m, FlagRegister, Flag(m.registers[x] >= m.registers[y]));
    SetRegister(m1, x, Wrap8(m1.registers[x] as int - m1.registers[y]))
  }

  /** VF gets bit 0 of Vx (Vx & 1), then Vx is shifted right by one. */
  function Op8xy6(m: State, op: Word16): State {
    var x := X(op);
    var m1 := SetRegister(m, FlagRegister, m.registers[x] % 2);
    SetRegister(m1, x, m1.registers[x] / 2)
  }

  /** VF is written first; Vy - Vx is then taken from the updated registers. */
  function Op8xy7(m: State, op: Word16): State {
    var x, y := X(op), Y(op);
    var m1 := SetRegister(m, FlagRegister, Flag(m.registers[y] >= m.registers[x]));
    SetRegister(m1, x, Wrap8(m1.registers[y] as int - m1.registers[x]))
  }

  /** VF gets bit 7 of Vx ((Vx & 0x80) >> 7), then Vx is shifted left by one, truncated to 8 bits. */
  function Op8xyE(m: State, op: Word16): State {
    var x := X(op);
    var m1 := SetRegister(m, FlagRegister, m.registers[x] / 0x80);
    SetRegister(m1, x, Wrap8(m1.registers[x] as int * 2))
  }

  // ---- index, jump with offset, random --------------------------------------

  function OpAnnn(m: State, op: Word16): State {
    m.(index := NNN(op))
  }

  /** The target nnn + V0 is at most 0xFFF + 0xFF, so it fits in 16 bits. */
  function OpBnnn(m: State, op: Word16): State {
    m.(pc := NNN(op) + m.registers[0])
  }

  /** `rand` is the byte the random source produced for this instruction. */
  function OpCxnn(m: State, op: Word16, rand: Byte): State {
    SetRegister(m, X(op), And8(rand, NN(op)))
  }

  // ---- sprite drawing -------------------------------------------------------

  /** The pixel value after XOR with 0xFFFFFFFF. */
  function Toggle(p: Word32): Word32 { 0xFFFF_FFFF - p }

  /** The mask 0x80 >> col. */
  function ColumnMask(col: nat): Byte
    requires col < 8
  {
    [0x80, 0x40, 0x20, 0x10, 0x08, 0x04, 0x02, 0x01][col]
  }

  /** Whether sprite & (0x80 >> col) is non-zero. */
  predicate SpriteBit(sprite: Byte, col: nat)
    requires col < 8
  {
    (sprite / ColumnMask(col)) % 2 == 1
  }

  /**
   * Cell (row, col) of a sprite drawn at (xPos, yPos) toggles its pixel: the
   * pixel is on the grid, the row's byte is inside memory and its bit is set.
   */
  predicate CellLit(m: State, xPos: nat, yPos: nat, row: nat, col: nat)
    requires col < 8
  {
    && xPos + col < VideoWidth
    && yPos + row < VideoHeight
    && m.index + row < MemSize
    && SpriteBit(m.memory[m.index + row], col)
  }

  /** The framebuffer position of cell (row, col). */
  function CellPixel(xPos: nat, yPos: nat, row: nat, col: nat): nat {
    (yPos + row) * VideoWidth + xPos + col
  }

  /** Cell (row, col) toggles a pixel that is currently non-zero. */
  predicate Hit(m: State, xPos: nat, yPos: nat, row: nat, col: nat)
    requires col < 8
  {
    CellLit(m, xPos, yPos, row, col) && m.video[CellPixel(xPos, yPos, row, col)] != 0
  }

  /** Some cell among the first `cols` of row `row` is a hit. */
  predicate CollidedInRow(m: State, xPos: nat, yPos: nat, row: nat, cols: nat)
    requires cols <= 8
  {
    cols > 0 && (CollidedInRow(m, xPos, yPos, row, cols - 1) || Hit(m, xPos, yPos, row, cols - 1))
  }

  /** Some cell among the first `rows` rows is a hit. */
  predicate CollidedRows(m: State, xPos: nat, yPos: nat, rows: nat) {
    rows > 0 && (CollidedRows(m, xPos, yPos, rows - 1) || CollidedInRow(m, xPos, yPos, rows - 1, 8))
  }

  /**
   * Pixel i is toggled by one of the cells that come before (rows, cols) in
   * drawing order (row by row, column by column within a row).
   */
  predicate DrawnBefore(m: State, xPos: nat, yPos: nat, rows: nat, cols: nat, i: nat) {
    var px, py := i % VideoWidth, i / VideoWidth;
    && xPos <= px < xPos + 8
    && yPos <= py
    && var row, col := py - yPos, px - xPos;
    && (row < rows || (row == rows && col < cols))
    && CellLit(m, xPos, yPos, row, col)
  }

  /** The framebuffer after the cells before (rows, cols) have been XOR-ed in. */
  function DrawnVideo(m: State, xPos: nat, yPos: nat, rows: nat, cols: nat): seq<Word32> {
    seq(VideoSize, i requires 0 <= i < VideoSize =>
      if DrawnBefore(m, xPos, yPos, rows, cols, i) then Toggle(m.video[i]) else m.video[i])
  }

  /** The draw position (Vx mod 64, Vy mod 32), read before VF is cleared. */
  function DrawX(m: State, op: Word16): nat { m.registers[X(op)] % VideoWidth }
  function DrawY(m: State, op: Word16): nat { m.registers[Y(op)] % VideoHeight }

  /**
   * Draws the N-row sprite at memory[index..] at (DrawX, DrawY), clipped to the
   * grid, skipping rows past the end of memory; VF becomes the collision flag.
   */
  function OpDxyn(m: State, op: Word16): State {
    var xPos, yPos, height := DrawX(m, op), DrawY(m, op), N(op);
    m.(video := DrawnVideo(m, xPos, yPos, height, 0),
       registers := m.registers[FlagRegister := Flag(CollidedRows(m, xPos, yPos, height))])
  }

  // ---- keypad ---------------------------------------------------------------

  function OpEx9E(m: State, op: Word16): State {
    var k := m.registers[X(op)];
    if k < NumKeys && m.keypad[k] != 0 then Skip(m) else m
  }

  function OpExA1(m: State, op: Word16): State {
    var k := m.registers[X(op)];
    if k < NumKeys && m.keypad[k] == 0 then Skip(m) else m
  }

  /** The lowest pressed key at or after `from`, or |keys| when there is none. */
  function FirstPressed(keys: seq<Byte>, from: nat): (k: nat)
    requires from <= |keys|
    ensures from <= k <= |keys|
    ensures k < |keys| ==> keys[k] != 0
    ensures forall j :: from <= j < k ==> keys[j] == 0
    decreases |keys| - from
  {
    if from == |keys| then from
    else if keys[from] != 0 then from
    else FirstPressed(keys, from + 1)
  }

  /** Vx := the lowest pressed key; with no key pressed, pc goes back two bytes (16-bit subtraction). */
  function OpFx0A(m: State, op: Word16): State {
    var k := FirstPressed(m.keypad, 0);
    if k < NumKeys then SetRegister(m, X(op), k)
    else m.(pc := Wrap16(m.pc - 2))
  }

  // ---- timers, index, font, BCD, register blocks -----------------------------

  function OpFx07(m: State, op: Word16): State {
    SetRegister(m, X(op), m.delayTimer)
  }

  function OpFx15(m: State, op: Word16): State {
    m.(delayTimer := m.registers[X(op)])
  }

  function OpFx18(m: State, op: Word16): State {
    m.(soundTimer := m.registers[X(op)])
  }

  function OpFx1E(m: State, op: Word16): State {
    var sum := m.index as int + m.registers[X(op)];
    if sum < MemSize then m.(index := sum) else m
  }

  function OpFx29(m: State, op: Word16): State {
    var digit := m.registers[X(op)];
    if digit < 16 then m.(index := FontsetStartAddress + 5 * digit) else m
  }

  /** The three writes are unchecked, so the handler is defined only when index + 2 is inside memory. */
  function OpFx33(m: State, op: Word16): State
    requires m.index + 2 < MemSize
  {
    var value := m.registers[X(op)];
    m.(memory := m.memory[m.index := value / 100]
                         [m.index + 1 := (value / 10) % 10]
                         [m.index + 2 := value % 10])
  }

  /** memory[index + i] := Vi for every i <= x whose address is inside memory. */
  function OpFx55(m: State, op: Word16): State {
    var x := X(op);
    m.(memory := seq(MemSize, a requires 0 <= a < MemSize =>
                       if m.index <= a <= m.index + x then m.registers[a - m.index] else m.memory[a]))
  }

  /** Vi := memory[index + i] for every i <= x whose address is inside memory. */
  function OpFx65(m: State, op: Word16): State {
    var x := X(op);
    m.(registers := seq(NumRegisters, i requires 0 <= i < NumRegisters =>
                          if i <= x && m.index + i < MemSize then m.memory[m.index + i] else m.registers[i]))
  }

  // ===========================================================================
  // Properties
  // ===========================================================================

  /** Clearing the screen turns every pixel off and changes nothing else. */
  lemma ClearScreen(m: State)
    ensures forall i :: 0 <= i < VideoSize ==> Op00E0(m).video[i] == 0
    ensures Op00E0(m).(video := m.video) == m
  {
  }

  /** A call with room on the stack pushes pc and jumps; the return that follows restores pc and the stack pointer. */
  lemma CallThenReturn(m: State, op: Word16)
    requires m.stackPointer < StackSize
    ensures var c := Op2nnn(m, op);
      && c.pc == NNN(op) && c.stackPointer == m.stackPointer + 1 && c.stack[m.stackPointer] == m.pc
      && var r := Op00EE(c);
      && r.pc == m.pc && r.stackPointer == m.stackPointer
      && r == m.(stack := m.stack[m.stackPointer := m.pc])
  {
  }

  /** A call on a full stack and a return on an empty one change nothing; neither takes the pointer past 16. */
  lemma StackBounds(m: State, op: Word16)
    requires m.stackPointer <= StackSize
    ensures m.stackPointer >= StackSize ==> Op2nnn(m, op) == m
    ensures m.stackPointer == 0 ==> Op00EE(m) == m
    ensures Op2nnn(m, op).stackPointer <= StackSize && Op00EE(m).stackPointer <= StackSize
  {
  }

  /** r differs from m in registers a and b at most, and in no other field. */
  predicate OnlyRegistersChange(m: State, r: State, a: nat, b: nat) {
    && r.(registers := m.registers) == m
    && forall i :: 0 <= i < NumRegisters && i != a && i != b ==> r.registers[i] == m.registers[i]
  }

  /** Add with carry, x != F: VF = 1 iff Vx + Vy > 255, and Vx = (Vx + Vy) mod 256. */
  lemma AddWithCarry(m: State, op: Word16)
    requires X(op) != FlagRegister
    ensures var a: int, b: int, r := m.registers[X(op)], m.registers[Y(op)], Op8xy4(m, op);
      && (r.registers[FlagRegister] == 1 <==> a + b > 255)
      && r.registers[FlagRegister] in {0, 1}
      && r.registers[X(op)] == (a + b) % 256
      && OnlyRegistersChange(m, r, X(op), FlagRegister)
  {
  }

  /** With x = F the carry is overwritten by the truncated sum. */
  lemma AddWithCarryIntoFlag(m: State, op: Word16)
    requires X(op) == FlagRegister
    ensures Op8xy4(m, op).registers[FlagRegister] == (m.registers[FlagRegister] as int + m.registers[Y(op)]) % 256
    ensures OnlyRegistersChange(m, Op8xy4(m, op), FlagRegister, FlagRegister)
  {
  }

  /** Subtract, x and y != F: VF = 1 iff Vx >= Vy, and Vx = (Vx - Vy) mod 256. */
  lemma SubtractWithBorrow(m: State, op: Word16)
    requires X(op) != FlagRegister && Y(op) != FlagRegister
    ensures var a: int, b: int, r := m.registers[X(op)], m.registers[Y(op)], Op8xy5(m, op);
      && (r.registers[FlagRegister] == 1 <==> a >= b)
      && r.registers[FlagRegister] in {0, 1}
      && r.registers[X(op)] == (a - b) % 256
      && OnlyRegistersChange(m, r, X(op), FlagRegister)
  {
  }

  /** Reverse subtract, x and y != F: VF = 1 iff Vy >= Vx, and Vx = (Vy - Vx) mod 256. */
  lemma ReverseSubtractWithBorrow(m: State, op: Word16)
    requires X(op) != FlagRegister && Y(op) != FlagRegister
    ensures var a: int, b: int, r := m.registers[X(op)], m.registers[Y(op)], Op8xy7(m, op);
      && (r.registers[FlagRegister] == 1 <==> b >= a)
      && r.registers[FlagRegister] in {0, 1}
      && r.registers[X(op)] == (b - a) % 256
      && OnlyRegistersChange(m, r, X(op), FlagRegister)
  {
  }

  /** With y = F (x != F), the subtrahend is the flag just written, not the old VF. */
  lemma SubtractReadsNewFlag(m: State, op: Word16)
    requires Y(op) == FlagRegister && X(op) != FlagRegister
    ensures var a: int, f := m.registers[X(op)], Flag(m.registers[X(op)] >= m.registers[FlagRegister]);
      Op8xy5(m, op).registers[X(op)] == (a - f) % 256
    ensures OnlyRegistersChange(m, Op8xy5(m, op), X(op), FlagRegister)
  {
  }

  /** Shifts, x != F: VF gets the bit shifted out, Vx the shifted old value. */
  lemma Shifts(m: State, op: Word16)
    requires X(op) != FlagRegister
    ensures var v: int := m.registers[X(op)];
      && Op8xy6(m, op).registers[FlagRegister] == v % 2
      && Op8xy6(m, op).registers[X(op)] == v / 2
      && Op8xyE(m, op).registers[FlagRegister] == (if v >= 0x80 then 1 else 0)
      && Op8xyE(m, op).registers[X(op)] == (2 * v) % 256
      && OnlyRegistersChange(m, Op8xy6(m, op), X(op), FlagRegister)
      && OnlyRegistersChange(m, Op8xyE(m, op), X(op), FlagRegister)
  {
  }

  /** With x = F the shifted flag itself is the result: 8xy6 leaves 0 in VF and 8xyE leaves 0 or 2. */
  lemma ShiftsIntoFlag(m: State, op: Word16)
    requires X(op) == FlagRegister
    ensures Op8xy6(m, op).registers[FlagRegister] == 0
    ensures Op8xyE(m, op).registers[FlagRegister] == 2 * (m.registers[FlagRegister] / 0x80)
    ensures OnlyRegistersChange(m, Op8xy6(m, op), FlagRegister, FlagRegister)
    ensures OnlyRegistersChange(m, Op8xyE(m, op), FlagRegister, FlagRegister)
  {
  }

  /** Add immediate then add immediate: V5 := 10 followed by V5 += 5 leaves 15. */
  lemma LoadThenAddImmediate(m: State)
    ensures Op7xnn(Op6xnn(m, 0x650A), 0x7505).registers[5] == 15
  {
  }

  /** a & b has exactly the bits set in both operands, so none outside either. */
  lemma {:induction false} AndWithin(a: nat, b: nat, width: nat)
    ensures var r := Bitwise(AndBit, a, b, width);
      && (forall k: nat :: k < width ==> (Bit(r, k) <==> Bit(a, k) && Bit(b, k)))
      && BitsWithin(r, b, width) && BitsWithin(r, a, width) && r <= a && r <= b
  {
    var r := Bitwise(AndBit, a, b, width);
    forall k: nat | k < width ensures Bit(r, k) <==> Bit(a, k) && Bit(b, k) {
      BitwiseBit(AndBit, a, b, width, k);
    }
    if width > 0 {
      AndWithin(a / 2, b / 2, width - 1);
      assert r / 2 == Bitwise(AndBit, a / 2, b / 2, width - 1);
    }
  }

  lemma RandomMasked(m: State, op: Word16, rand: Byte)
    ensures var r := OpCxnn(m, op, rand).registers[X(op)];
      BitsWithin(r, NN(op), 8) && BitsWithin(r, rand, 8) && r <= NN(op) && r <= rand
    ensures OnlyRegistersChange(m, OpCxnn(m, op, rand), X(op), X(op))
  {
    AndWithin(rand, NN(op), 8);
  }

  /** Each skip and its negation: exactly one of 3xnn and 4xnn, and one of 5xy0 and 9xy0, moves pc, by two. */
  lemma SkipsComplementary(m: State, op: Word16)
    ensures var s3, s4 := Op3xnn(m, op), Op4xnn(m, op);
      && (s3 == Skip(m) <==> m.registers[X(op)] == NN(op)) && (s3 != Skip(m) ==> s3 == m)
      && (s4 == Skip(m) <==> m.registers[X(op)] != NN(op)) && (s4 != Skip(m) ==> s4 == m)
    ensures var s5, s9 := Op5xy0(m, op), Op9xy0(m, op);
      && (s5 == Skip(m) <==> m.registers[X(op)] == m.registers[Y(op)]) && (s5 != Skip(m) ==> s5 == m)
      && (s9 == Skip(m) <==> m.registers[X(op)] != m.registers[Y(op)]) && (s9 != Skip(m) ==> s9 == m)
    ensures Skip(m).pc == (m.pc + 2) % 0x1_0000 && Skip(m).pc != m.pc
  {
  }

  /**
   * The key skips: with Vx naming a key, exactly one of Ex9E and ExA1
   * skips; with Vx of 16 or more neither does.
   */
  lemma KeySkips(m: State, op: Word16)
    ensures var k := m.registers[X(op)];
      && (k < NumKeys ==> (OpEx9E(m, op) == Skip(m) <==> m.keypad[k] != 0))
      && (k < NumKeys ==> (OpExA1(m, op) == Skip(m) <==> m.keypad[k] == 0))
      && (k >= NumKeys ==> OpEx9E(m, op) == m && OpExA1(m, op) == m)
  {
    assert Skip(m) != m;
  }

  /** After 8xy0 the two registers are equal, so a following 5xy0 on them skips. */
  lemma CopyThenSkipIfEqual(m: State, op: Word16)
    ensures var r := Op8xy0(m, op);
      && r.registers[X(op)] == m.registers[Y(op)]
      && OnlyRegistersChange(m, r, X(op), X(op))
      && Op5xy0(r, op) == Skip(r)
  {
  }

  /** 6xnn loads nn into Vx and changes no other register and nothing else. */
  lemma LoadImmediate(m: State, op: Word16)
    ensures var r := Op6xnn(m, op);
      && r.registers[X(op)] == NN(op) == op % 0x100
      && (forall i :: 0 <= i < NumRegisters && i != X(op) ==> r.registers[i] == m.registers[i])
      && r.(registers := m.registers) == m
  {
  }

  /** 7xnn adds without carry: Vx wraps to (Vx + nn) mod 256 and no other register changes, VF included. */
  lemma AddImmediateNoCarry(m: State, op: Word16)
    ensures var r := Op7xnn(m, op);
      && r.registers[X(op)] == (m.registers[X(op)] + NN(op)) % 256
      && (forall i :: 0 <= i < NumRegisters && i != X(op) ==> r.registers[i] == m.registers[i])
      && r.(registers := m.registers) == m
  {
  }

  /** The jumps: 1nnn reaches at most 0xFFF; Bnnn reaches nnn + V0, up to 0x10FE, past the end of memory. */
  lemma JumpTargets(m: State, op: Word16)
    ensures Op1nnn(m, op) == m.(pc := NNN(op)) && NNN(op) <= 0xFFF
    ensures OpBnnn(m, op) == m.(pc := NNN(op) + m.registers[0]) && NNN(op) + m.registers[0] <= 0x10FE
    ensures NNN(op) == 0xFFF && m.registers[0] == 0xFF ==> OpBnnn(m, op).pc >= MemSize
  {
  }

  /** Annn, Fx1E and Fx29 keep index inside memory. */
  lemma IndexStaysInMemory(m: State, op: Word16)
    ensures OpAnnn(m, op) == m.(index := NNN(op)) && NNN(op) < MemSize
    ensures m.index < MemSize ==> OpFx1E(m, op).index < MemSize && OpFx29(m, op).index < MemSize
  {
  }

  /** Storing Vx in a timer and reading the delay timer back into the same register leaves the registers unchanged. */
  lemma TimerRoundTrip(m: State, op: Word16, op2: Word16)
    requires X(op2) == X(op)
    ensures OpFx07(OpFx15(m, op), op2) == OpFx15(m, op)
    ensures OpFx15(m, op) == m.(delayTimer := m.registers[X(op)])
    ensures OpFx18(m, op) == m.(soundTimer := m.registers[X(op)])
    ensures OpFx07(m, op) == m.(registers := m.registers[X(op) := m.delayTimer])
  {
    assert OpFx15(m, op).registers[X(op) := m.registers[X(op)]] == OpFx15(m, op).registers;
  }

  // ---- the bitwise operators -------------------------------------------------

  /** Bit k of v, counting from the lowest. */
  predicate Bit(v: nat, k: nat) {
    if k == 0 then v % 2 == 1 else Bit(v / 2, k - 1)
  }

  /** Below the width, each bit of the combination is `op` of the operands' bits. */
  lemma {:induction false} BitwiseBit(op: (bool, bool) -> bool, a: nat, b: nat, width: nat, k: nat)
    requires k < width
    ensures Bit(Bitwise(op, a, b, width), k) == op(Bit(a, k), Bit(b, k))
  {
    assert Bitwise(op, a, b, width) / 2 == Bitwise(op, a / 2, b / 2, width - 1);
    if k > 0 {
      BitwiseBit(op, a / 2, b / 2, width - 1, k - 1);
    }
  }

  /** Two values of the same width with the same bits are equal. */
  lemma {:induction false} BitsDetermineValue(u: nat, v: nat, width: nat)
    requires u < Pow2(width) && v < Pow2(width)
    requires forall k: nat :: k < width ==> (Bit(u, k) <==> Bit(v, k))
    ensures u == v
  {
    if width > 0 {
      assert Bit(u, 0) <==> Bit(v, 0);
      forall k: nat | k < width - 1 ensures Bit(u / 2, k) <==> Bit(v / 2, k) {
        assert Bit(u, k + 1) <==> Bit(v, k + 1);
      }
      BitsDetermineValue(u / 2, v / 2, width - 1);
    }
  }


  /** XOR with the same value twice gives back the original. */
  lemma {:induction false} XorTwice(a: nat, b: nat, width: nat)
    requires a < Pow2(width)
    ensures Bitwise(XorBit, Bitwise(XorBit, a, b, width), b, width) == a
  {
    if width > 0 {
      var r := Bitwise(XorBit, a, b, width);
      assert r / 2 == Bitwise(XorBit, a / 2, b / 2, width - 1);
      assert r % 2 == (if (a % 2 == 1) != (b % 2 == 1) then 1 else 0);
      XorTwice(a / 2, b / 2, width - 1);
    }
  }

  /** a | b has exactly the bits set in either operand. */
  lemma {:induction false} OrCovers(a: nat, b: nat, width: nat)
    ensures var r := Bitwise(OrBit, a, b, width);
      && (forall k: nat :: k < width ==> (Bit(r, k) <==> Bit(a, k) || Bit(b, k)))
      && BitsWithin(a, r, width) && BitsWithin(b, r, width)
  {
    var r := Bitwise(OrBit, a, b, width);
    forall k: nat | k < width ensures Bit(r, k) <==> Bit(a, k) || Bit(b, k) {
      BitwiseBit(OrBit, a, b, width, k);
    }
    if width > 0 {
      OrCovers(a / 2, b / 2, width - 1);
      assert r / 2 == Bitwise(OrBit, a / 2, b / 2, width - 1);
    }
  }

  /**
   * The logical instructions change only Vx, and bit k of the new Vx is
   * the OR, AND or XOR of bit k of Vx and Vy; with x != y, 8xy3 applied
   * twice restores the registers.
   */
  lemma LogicalOps(m: State, op: Word16)
    ensures X(op) != Y(op) ==> Op8xy3(Op8xy3(m, op), op).registers == m.registers
    ensures var a, b, r := m.registers[X(op)], m.registers[Y(op)], Op8xy1(m, op);
      && (forall k: nat :: k < 8 ==> (Bit(r.registers[X(op)], k) <==> Bit(a, k) || Bit(b, k)))
      && BitsWithin(a, r.registers[X(op)], 8) && BitsWithin(b, r.registers[X(op)], 8)
      && r.(registers := m.registers) == m
      && (forall i :: 0 <= i < NumRegisters && i != X(op) ==> r.registers[i] == m.registers[i])
    ensures var a, b, r := m.registers[X(op)], m.registers[Y(op)], Op8xy2(m, op);
      && (forall k: nat :: k < 8 ==> (Bit(r.registers[X(op)], k) <==> Bit(a, k) && Bit(b, k)))
      && BitsWithin(r.registers[X(op)], a, 8) && BitsWithin(r.registers[X(op)], b, 8)
      && r.registers[X(op)] <= a && r.registers[X(op)] <= b
      && r.(registers := m.registers) == m
      && (forall i :: 0 <= i < NumRegisters && i != X(op) ==> r.registers[i] == m.registers[i])
    ensures var a, b, r := m.registers[X(op)], m.registers[Y(op)], Op8xy3(m, op);
      && (forall k: nat :: k < 8 ==> (Bit(r.registers[X(op)], k) <==> Bit(a, k) != Bit(b, k)))
      && r.(registers := m.registers) == m
      && (forall i :: 0 <= i < NumRegisters && i != X(op) ==> r.registers[i] == m.registers[i])
  {
    var a, b := m.registers[X(op)], m.registers[Y(op)];
    assert Pow2(8) == 256;
    XorTwice(a, b, 8);
    OrCovers(a, b, 8);
    AndWithin(a, b, 8);
    forall k: nat | k < 8 ensures Bit(Xor8(a, b), k) <==> Bit(a, k) != Bit(b, k) {
      BitwiseBit(XorBit, a, b, 8, k);
    }
    if X(op) != Y(op) {
      assert Op8xy3(Op8xy3(m, op), op).registers == m.registers;
    }
  }

  /**
   * The per-bit descriptions determine the results: the only byte whose bits
   * are those of Vx | Vy (Vx & Vy, Vx ^ Vy) is what 8xy1 (8xy2, 8xy3) leaves.
   */
  lemma LogicalOpsDetermined(m: State, op: Word16, v: Byte)
    ensures var a, b := m.registers[X(op)], m.registers[Y(op)];
      && ((forall k: nat :: k < 8 ==> (Bit(v, k) <==> Bit(a, k) || Bit(b, k))) ==> Op8xy1(m, op).registers[X(op)] == v)
      && ((forall k: nat :: k < 8 ==> (Bit(v, k) <==> Bit(a, k) && Bit(b, k))) ==> Op8xy2(m, op).registers[X(op)] == v)
      && ((forall k: nat :: k < 8 ==> (Bit(v, k) <==> Bit(a, k) != Bit(b, k))) ==> Op8xy3(m, op).registers[X(op)] == v)
  {
    var a, b := m.registers[X(op)], m.registers[Y(op)];
    LogicalOps(m, op);
    assert Pow2(8) == 256;
    if forall k: nat :: k < 8 ==> (Bit(v, k) <==> Bit(a, k) || Bit(b, k)) {
      BitsDetermineValue(v, Or8(a, b), 8);
    }
    if forall k: nat :: k < 8 ==> (Bit(v, k) <==> Bit(a, k) && Bit(b, k)) {
      BitsDetermineValue(v, And8(a, b), 8);
    }
    if forall k: nat :: k < 8 ==> (Bit(v, k) <==> Bit(a, k) != Bit(b, k)) {
      BitsDetermineValue(v, Xor8(a, b), 8);
    }
  }

  /** Every value a pixel takes: off or on. */
  predicate Monochrome(video: seq<Word32>) {
    forall i :: 0 <= i < |video| ==> video[i] == 0 || video[i] == PixelOn
  }

  lemma {:induction false} CollidedInRowIff(m: State, xPos: nat, yPos: nat, row: nat, cols: nat)
    requires cols <= 8
    ensures CollidedInRow(m, xPos, yPos, row, cols) <==> exists c :: 0 <= c < cols && Hit(m, xPos, yPos, row, c)
  {
    if cols > 0 {
      CollidedInRowIff(m, xPos, yPos, row, cols - 1);
    }
  }

  lemma {:induction false} CollidedRowsIff(m: State, xPos: nat, yPos: nat, rows: nat)
    ensures CollidedRows(m, xPos, yPos, rows) <==>
      exists r, c :: 0 <= r < rows && 0 <= c < 8 && Hit(m, xPos, yPos, r, c)
  {
    if rows > 0 {
      CollidedRowsIff(m, xPos, yPos, rows - 1);
      CollidedInRowIff(m, xPos, yPos, rows - 1, 8);
      if CollidedRows(m, xPos, yPos, rows) {
        if CollidedInRow(m, xPos, yPos, rows - 1, 8) {
          var c :| 0 <= c < 8 && Hit(m, xPos, yPos, rows - 1, c);
          assert 0 <= rows - 1 < rows && Hit(m, xPos, yPos, rows - 1, c);
        }
      } else {
        forall r, c | 0 <= r < rows && 0 <= c < 8 ensures !Hit(m, xPos, yPos, r, c) {
          if r == rows - 1 {
            assert !CollidedInRow(m, xPos, yPos, rows - 1, 8);
          }
        }
      }
    }
  }

  lemma PixelCoordinates(px: nat, py: nat)
    requires px < VideoWidth
    ensures (py * VideoWidth + px) % VideoWidth == px
    ensures (py * VideoWidth + px) / VideoWidth == py
  {
  }

  /** A hit cell is a toggled pixel that was non-zero. */
  lemma HitIsLitPixel(m: State, xPos: nat, yPos: nat, height: nat, r: nat, c: nat)
    requires r < height && c < 8 && Hit(m, xPos, yPos, r, c)
    ensures var i := CellPixel(xPos, yPos, r, c);
      i < VideoSize && DrawnBefore(m, xPos, yPos, height, 0, i) && m.video[i] != 0
  {
    PixelCoordinates(xPos + c, yPos + r);
  }

  /** A toggled pixel that was non-zero comes from a hit cell. */
  lemma LitPixelIsHit(m: State, xPos: nat, yPos: nat, height: nat, i: nat)
    requires i < VideoSize && DrawnBefore(m, xPos, yPos, height, 0, i) && m.video[i] != 0
    ensures var r, c := i / VideoWidth - yPos, i % VideoWidth - xPos;
      0 <= r < height && 0 <= c < 8 && Hit(m, xPos, yPos, r, c)
  {
    var r, c := i / VideoWidth - yPos, i % VideoWidth - xPos;
    assert i == CellPixel(xPos, yPos, r, c);
  }

  lemma CollisionIffLitPixel(m: State, xPos: nat, yPos: nat, height: nat)
    ensures CollidedRows(m, xPos, yPos, height) <==>
      exists i :: 0 <= i < VideoSize && DrawnBefore(m, xPos, yPos, height, 0, i) && m.video[i] != 0
  {
    CollidedRowsIff(m, xPos, yPos, height);
    if CollidedRows(m, xPos, yPos, height) {
      var r, c :| 0 <= r < height && 0 <= c < 8 && Hit(m, xPos, yPos, r, c);
      HitIsLitPixel(m, xPos, yPos, height, r, c);
    }
    if exists i :: 0 <= i < VideoSize && DrawnBefore(m, xPos, yPos, height, 0, i) && m.video[i] != 0 {
      var i :| 0 <= i < VideoSize && DrawnBefore(m, xPos, yPos, height, 0, i) && m.video[i] != 0;
      LitPixelIsHit(m, xPos, yPos, height, i);
    }
  }

  /** The draw's flag is 1 exactly when it toggles some pixel that was on (non-zero), and 0 otherwise. */
  lemma DrawCollision(m: State, op: Word16)
    ensures var r, xPos, yPos := OpDxyn(m, op), DrawX(m, op), DrawY(m, op);
      && r.registers[FlagRegister] in {0, 1}
      && (r.registers[FlagRegister] == 1 <==>
          exists i :: 0 <= i < VideoSize && DrawnBefore(m, xPos, yPos, N(op), 0, i) && m.video[i] != 0)
  {
    CollisionIffLitPixel(m, DrawX(m, op), DrawY(m, op), N(op));
  }

  // ---- the drawing loop, one cell at a time ----------------------------------

  /** Drawing cell (row, col) toggles its pixel, which no earlier cell has touched, when the cell is lit. */
  lemma DrawCellStep(m: State, xPos: nat, yPos: nat, row: nat, col: nat)
    requires xPos < VideoWidth && yPos < VideoHeight && col < 8
    ensures CellLit(m, xPos, yPos, row, col) ==>
      var p := CellPixel(xPos, yPos, row, col);
      && p < VideoSize
      && DrawnVideo(m, xPos, yPos, row, col)[p] == m.video[p]
      && DrawnVideo(m, xPos, yPos, row, col + 1) == DrawnVideo(m, xPos, yPos, row, col)[p := Toggle(m.video[p])]
    ensures !CellLit(m, xPos, yPos, row, col) ==>
      DrawnVideo(m, xPos, yPos, row, col + 1) == DrawnVideo(m, xPos, yPos, row, col)
  {
    var p := CellPixel(xPos, yPos, row, col);
    forall i | 0 <= i < VideoSize
      ensures DrawnBefore(m, xPos, yPos, row, col + 1, i) <==>
        DrawnBefore(m, xPos, yPos, row, col, i) || (CellLit(m, xPos, yPos, row, col) && i == p)
    {
      if i == p && xPos + col < VideoWidth {
        PixelCoordinates(xPos + col, yPos + row);
      } else if i == p {
        PixelCoordinates(xPos + col - VideoWidth, yPos + row + 1);
      }
    }
    if CellLit(m, xPos, yPos, row, col) {
      PixelCoordinates(xPos + col, yPos + row);
    }
  }

  /** The end of one row is the start of the next. */
  lemma DrawRowStep(m: State, xPos: nat, yPos: nat, row: nat)
    ensures DrawnVideo(m, xPos, yPos, row, 8) == DrawnVideo(m, xPos, yPos, row + 1, 0)
  {
  }

  /** Rows from `row` on lie past the end of memory, so they draw nothing and hit nothing. */
  lemma {:induction false} DrawStopsAtMemoryEnd(m: State, xPos: nat, yPos: nat, row: nat, height: nat)
    requires row <= height && m.index + row >= MemSize
    ensures DrawnVideo(m, xPos, yPos, height, 0) == DrawnVideo(m, xPos, yPos, row, 0)
    ensures CollidedRows(m, xPos, yPos, height) == CollidedRows(m, xPos, yPos, row)
  {
    if row < height {
      DrawStopsAtMemoryEnd(m, xPos, yPos, row, height - 1);
      assert !CollidedInRow(m, xPos, yPos, height - 1, 8) by {
        CollidedInRowIff(m, xPos, yPos, height - 1, 8);
      }
      assert DrawnVideo(m, xPos, yPos, height, 0) == DrawnVideo(m, xPos, yPos, height - 1, 0);
    }
  }

  /**
   * A draw changes only pixels inside the box at (DrawX, DrawY) of 8 columns
   * and N rows, clipped to the grid, whose row lies inside memory; it changes
   * no register but VF and nothing outside registers and framebuffer.
   */
  lemma DrawFootprint(m: State, op: Word16)
    ensures var r, xPos, yPos := OpDxyn(m, op), DrawX(m, op), DrawY(m, op);
      && (forall i :: 0 <= i < VideoSize && r.video[i] != m.video[i] ==>
            var px, py := i % VideoWidth, i / VideoWidth;
            xPos <= px < xPos + 8 && yPos <= py < yPos + N(op) && m.index + (py - yPos) < MemSize)
      && (forall i :: 0 <= i < NumRegisters && i != FlagRegister ==> r.registers[i] == m.registers[i])
      && r.(video := m.video, registers := m.registers) == m
  {
  }

  /** Drawing keeps every pixel off or on. */
  lemma DrawMonochrome(m: State, op: Word16)
    requires Monochrome(m.video)
    ensures Monochrome(OpDxyn(m, op).video)
  {
  }

  /**
   * Drawing the same sprite twice (x, y != F, so the position is not moved by
   * the flag) restores the framebuffer; the second flag is 1 exactly when a
   * toggled pixel was on after the first draw.
   */
  lemma DrawTwiceRestores(m: State, op: Word16)
    requires X(op) != FlagRegister && Y(op) != FlagRegister
    ensures var m1 := OpDxyn(m, op);
      var m2 := OpDxyn(m1, op);
      && m2.video == m.video
      && (m2.registers[FlagRegister] == 1 <==>
          exists i :: 0 <= i < VideoSize && DrawnBefore(m, DrawX(m, op), DrawY(m, op), N(op), 0, i) && m1.video[i] != 0)
  {
    var m1 := OpDxyn(m, op);
    var xPos, yPos := DrawX(m, op), DrawY(m, op);
    assert DrawX(m1, op) == xPos && DrawY(m1, op) == yPos;
    assert forall i :: 0 <= i < VideoSize ==>
      DrawnBefore(m1, xPos, yPos, N(op), 0, i) == DrawnBefore(m, xPos, yPos, N(op), 0, i);
    assert OpDxyn(m1, op).video == m.video;
    DrawCollision(m1, op);
  }

  lemma FullRowCells(m: State)
    requires m.index < MemSize && m.memory[m.index] == 0xFF
    ensures forall c :: 0 <= c < 8 ==> DrawnBefore(m, 0, 0, 1, 0, c)
  {
    forall c | 0 <= c < 8 ensures DrawnBefore(m, 0, 0, 1, 0, c) {
      assert c % VideoWidth == c && c / VideoWidth == 0;
      assert SpriteBit(0xFF, c);
    }
  }

  /** Row 0 of a full sprite byte drawn at (0, 0) on a blank screen: eight pixels turned on, no collision. */
  lemma DrawFullRowOnBlank(m: State)
    requires forall i :: 0 <= i < VideoSize ==> m.video[i] == 0
    requires m.registers[0] == 0 && m.registers[1] == 0
    requires m.index < MemSize && m.memory[m.index] == 0xFF
    ensures var m1 := OpDxyn(m, 0xD011);
      && m1.registers[FlagRegister] == 0
      && (forall c :: 0 <= c < 8 ==> DrawnBefore(m, 0, 0, 1, 0, c) && m1.video[c] == PixelOn)
  {
    assert X(0xD011) == 0 && Y(0xD011) == 1 && N(0xD011) == 1;
    assert DrawX(m, 0xD011) == 0 && DrawY(m, 0xD011) == 0;
    CollisionIffLitPixel(m, 0, 0, 1);
    FullRowCells(m);
  }

  /** Clear, then draw 0xFF at (0, 0) with height 1 twice: row 0, columns 0..7 end off, the second flag is 1. */
  lemma ClearThenDrawTwice(m: State)
    requires m.registers[0] == 0 && m.registers[1] == 0
    requires m.index < MemSize && m.memory[m.index] == 0xFF
    ensures var m1 := OpDxyn(Op00E0(m), 0xD011);
      var m2 := OpDxyn(m1, 0xD011);
      && m1.registers[FlagRegister] == 0
      && (forall c :: 0 <= c < 8 ==> m1.video[c] == PixelOn && m2.video[c] == 0)
      && m2.registers[FlagRegister] == 1
  {
    var m0 := Op00E0(m);
    var m1 := OpDxyn(m0, 0xD011);
    DrawFullRowOnBlank(m0);
    DrawTwiceRestores(m0, 0xD011);
    assert DrawnBefore(m0, 0, 0, 1, 0, 0) && m1.video[0] != 0;
  }

  /** Fx0A: with a key pressed, Vx becomes the lowest pressed key; with none, only pc moves back two bytes. */
  lemma WaitForKey(m: State, op: Word16)
    ensures var r := OpFx0A(m, op);
      if exists k :: 0 <= k < NumKeys && m.keypad[k] != 0 then
        var v := r.registers[X(op)];
        && v < NumKeys && m.keypad[v] != 0
        && (forall j :: 0 <= j < v ==> m.keypad[j] == 0)
        && r == m.(registers := m.registers[X(op) := v])
      else
        r == m.(pc := (m.pc - 2) % 0x1_0000)
  {
  }

  /** Add to index: applied only when the sum stays inside memory, so index stays inside memory. */
  lemma AddToIndex(m: State, op: Word16)
    ensures var r := OpFx1E(m, op);
      && (m.index + m.registers[X(op)] < MemSize ==> r == m.(index := m.index + m.registers[X(op)]))
      && (m.index + m.registers[X(op)] >= MemSize ==> r == m)
      && (m.index < MemSize ==> r.index < MemSize)
  {
  }

  /** The font address of digit 10 is 0x50 + 50, and the five bytes there spell "A" while the font is intact. */
  predicate FontIntact(m: State) {
    m.memory[FontsetStartAddress..FontsetStartAddress + FontsetSize] == Fontset
  }

  lemma FontGlyphA(m: State, op: Word16)
    requires m.registers[X(op)] == 10
    ensures OpFx29(m, op).index == FontsetStartAddress + 50
    ensures FontIntact(m) ==>
      var i := OpFx29(m, op).index;
      m.memory[i..i + 5] == [0xF0, 0x90, 0xF0, 0x90, 0x90]
  {
    if FontIntact(m) {
      var font := m.memory[FontsetStartAddress..FontsetStartAddress + FontsetSize];
      assert m.memory[FontsetStartAddress + 50..FontsetStartAddress + 55] == font[50..55];
      assert Fontset[50..55] == [0xF0, 0x90, 0xF0, 0x90, 0x90];
    }
  }

  /** Every glyph row has a zero low nibble, so no glyph lights a column beyond the fourth. */
  lemma FontLowNibbles()
    ensures forall i :: 0 <= i < FontsetSize ==> Fontset[i] % 16 == 0
  {
  }

  lemma FontGlyphsNarrow()
    ensures forall i, c :: 0 <= i < FontsetSize && 4 <= c < 8 ==> !SpriteBit(Fontset[i], c)
  {
    FontLowNibbles();
    forall i, c | 0 <= i < FontsetSize && 4 <= c < 8 ensures !SpriteBit(Fontset[i], c) {
      LowNibbleClear(Fontset[i], c);
    }
  }

  lemma LowNibbleClear(b: Byte, c: nat)
    requires b % 16 == 0 && 4 <= c < 8
    ensures !SpriteBit(b, c)
  {
  }

  /** The font address is inside the font, at the start of digit Vx's glyph. */
  lemma FontAddress(m: State, op: Word16)
    ensures var r := OpFx29(m, op);
      && (m.registers[X(op)] < 16 ==>
            r == m.(index := FontsetStartAddress + 5 * m.registers[X(op)]) && r.index + 5 <= FontsetStartAddress + FontsetSize)
      && (m.registers[X(op)] >= 16 ==> r == m)
  {
  }

  /** BCD: three decimal digits of Vx at index, index+1, index+2; the rest of memory is unchanged. */
  lemma BcdDigits(m: State, op: Word16)
    requires m.index + 2 < MemSize
    ensures var r, i := OpFx33(m, op), m.index;
      && r.memory[i] < 10 && r.memory[i + 1] < 10 && r.memory[i + 2] < 10
      && 100 * r.memory[i] + 10 * r.memory[i + 1] + r.memory[i + 2] == m.registers[X(op)]
      && (forall a :: 0 <= a < MemSize && !(i <= a <= i + 2) ==> r.memory[a] == m.memory[a])
      && r.(memory := m.memory) == m
  {
  }

  /** Register dump writes only addresses in [index, index + x] inside memory, each with its register. */
  lemma StoreRegistersFootprint(m: State, op: Word16)
    ensures var r := OpFx55(m, op);
      && (forall a :: 0 <= a < MemSize && r.memory[a] != m.memory[a] ==> m.index <= a <= m.index + X(op))
      && (forall i :: 0 <= i <= X(op) && m.index + i < MemSize ==> r.memory[m.index + i] == m.registers[i])
      && r.(memory := m.memory) == m
  {
  }

  /** Dump followed by load with the same x and index leaves the registers, and everything else, as the dump left them. */
  lemma StoreThenLoadRegisters(m: State, op: Word16, op2: Word16)
    requires X(op2) == X(op)
    ensures OpFx65(OpFx55(m, op), op2) == OpFx55(m, op)
    ensures OpFx65(OpFx55(m, op), op2).registers == m.registers
  {
    var s := OpFx55(m, op);
    var l := OpFx65(s, op2);
    forall i | 0 <= i < NumRegisters ensures l.registers[i] == m.registers[i] {
      if i <= X(op) && m.index + i < MemSize {
        assert s.memory[m.index + i] == m.registers[i];
      }
    }
    assert l.registers == m.registers;
  }
}
