/**
 * The interpreter as the object it is: fixed-size arrays and scalar fields
 * updated in place, one method per instruction handler. Each method is
 * proved to have exactly the effect of its value-level counterpart in
 * Opcodes on the abstract state State(); Cycle is proved against Cpu.Step.
 */
module Interpreter {
  import opened Chip8
  import Opcodes
  import Cpu

  class Processor {
    var keypad: array<Byte>
    var video: array<Word32>
    var registers: array<Byte>
    var memory: array<Byte>
    var index: Word16
    var pc: Word16
    var stack: array<Word16>
    var stackPointer: Byte
    var delayTimer: Byte
    var soundTimer: Byte
    /** The instruction word of the current cycle, read by every handler. */
    var opcode: Word16

    /**
     * The arrays have their declared sizes and are distinct; index stays
     * inside memory and the stack pointer at most 16.
     */
    ghost predicate Valid()
      reads this
    {
      && keypad.Length == NumKeys
      && video.Length == VideoSize
      && registers.Length == NumRegisters
      && memory.Length == MemSize
      && stack.Length == StackSize
      && keypad != registers && keypad != memory && registers != memory
      && index < MemSize
      && stackPointer <= StackSize
    }

    /** The machine state the fields hold. */
    ghost function State(): State
      reads this, keypad, video, registers, memory, stack
      requires Valid()
    {
      Machine(memory[..], registers[..], index, pc, stack[..], stackPointer,
              delayTimer, soundTimer, video[..], keypad[..])
    }

    /** The constructor: font at 0x50, pc at the program start, every other field 0. */
    constructor()
      ensures Valid() && State() == Cpu.Initial()
      ensures fresh(keypad) && fresh(video) && fresh(registers) && fresh(memory) && fresh(stack)
    {
      keypad := new Byte[NumKeys](_ => 0);
      video := new Word32[VideoSize](_ => 0);
      registers := new Byte[NumRegisters](_ => 0);
      memory := new Byte[MemSize](_ => 0);
      stack := new Word16[StackSize](_ => 0);
      index := 0;
      pc := StartAddress;
      stackPointer := 0;
      delayTimer := 0;
      soundTimer := 0;
      opcode := 0;
      new;
      assert memory[..] == Cpu.FontLoaded(0);
      var i := 0;
      while i < FontsetSize
        invariant 0 <= i <= FontsetSize
        modifies memory
        invariant memory[..] == Cpu.FontLoaded(i)
      {
        Cpu.FontLoadedStep(i);
        memory[FontsetStartAddress + i] := Fontset[i];
        i := i + 1;
      }
      assert registers[..] == seq(NumRegisters, _ => 0);
      assert stack[..] == seq(StackSize, _ => 0);
      assert video[..] == seq(VideoSize, _ => 0);
      assert keypad[..] == seq(NumKeys, _ => 0);
    }

    /** Copies the program image into memory from the start address, as far as memory reaches. */
    method LoadProgram(bytes: seq<Byte>)
      requires Valid()
      modifies memory
      ensures Valid() && State() == Cpu.LoadProgram(old(State()), bytes)
    {
      var count := Cpu.LoadedLength(bytes);
      forall i | 0 <= i < count {
        memory[StartAddress + i] := bytes[i];
      }
      assert memory[..] == Cpu.LoadProgram(old(State()), bytes).memory;
    }

    // ---- 0 group, jumps and calls -------------------------------------------

    method Op00E0()
      requires Valid()
      modifies video
      ensures Valid() && State() == Opcodes.Op00E0(old(State()))
    {
      forall i | 0 <= i < VideoSize {
        video[i] := 0;
      }
      assert video[..] == seq(VideoSize, _ => 0);
    }

    method Op00EE()
      requires Valid()
      modifies this`stackPointer, this`pc
      ensures Valid() && State() == Opcodes.Op00EE(old(State()))
    {
      if stackPointer == 0 {
        return;
      }
      stackPointer := stackPointer - 1;
      pc := stack[stackPointer];
    }

    method Op1nnn()
      requires Valid()
      modifies this`pc
      ensures Valid() && State() == Opcodes.Op1nnn(old(State()), opcode)
    {
      pc := NNN(opcode);
    }

    method Op2nnn()
      requires Valid()
      modifies stack, this`stackPointer, this`pc
      ensures Valid() && State() == Opcodes.Op2nnn(old(State()), opcode)
    {
      if stackPointer >= StackSize {
        return;
      }
      stack[stackPointer] := pc;
      stackPointer := stackPointer + 1;
      pc := NNN(opcode);
    }

    // ---- conditional skips ----------------------------------------------------

    method Op3xnn()
      requires Valid()
      modifies this`pc
      ensures Valid() && State() == Opcodes.Op3xnn(old(State()), opcode)
    {
      if registers[X(opcode)] == NN(opcode) {
        pc := Wrap16(pc + 2);
      }
    }

    method Op4xnn()
      requires Valid()
      modifies this`pc
      ensures Valid() && State() == Opcodes.Op4xnn(old(State()), opcode)
    {
      if registers[X(opcode)] != NN(opcode) {
        pc := Wrap16(pc + 2);
      }
    }

    method Op5xy0()
      requires Valid()
      modifies this`pc
      ensures Valid() && State() == Opcodes.Op5xy0(old(State()), opcode)
    {
      if registers[X(opcode)] == registers[Y(opcode)] {
        pc := Wrap16(pc + 2);
      }
    }

    method Op9xy0()
      requires Valid()
      modifies this`pc
      ensures Valid() && State() == Opcodes.Op9xy0(old(State()), opcode)
    {
      if registers[X(opcode)] != registers[Y(opcode)] {
        pc := Wrap16(pc + 2);
      }
    }

    // ---- register arithmetic --------------------------------------------------

    method Op6xnn()
      requires Valid()
      modifies registers
      ensures Valid() && State() == Opcodes.Op6xnn(old(State()), opcode)
    {
      registers[X(opcode)] := NN(opcode);
    }

    method Op7xnn()
      requires Valid()
      modifies registers
      ensures Valid() && State() == Opcodes.Op7xnn(old(State()), opcode)
    {
      var x := X(opcode);
      registers[x] := Wrap8(registers[x] as int + NN(opcode));
    }

    method Op8xy0()
      requires Valid()
      modifies registers
      ensures Valid() && State() == Opcodes.Op8xy0(old(State()), opcode)
    {
      registers[X(opcode)] := registers[Y(opcode)];
    }

    method Op8xy1()
      requires Valid()
      modifies registers
      ensures Valid() && State() == Opcodes.Op8xy1(old(State()), opcode)
    {
      var x := X(opcode);
      registers[x] := Opcodes.Or8(registers[x], registers[Y(opcode)]);
    }

    method Op8xy2()
      requires Valid()
      modifies registers
      ensures Valid() && State() == Opcodes.Op8xy2(old(State()), opcode)
    {
      var x := X(opcode);
      registers[x] := Opcodes.And8(registers[x], registers[Y(opcode)]);
    }

    method Op8xy3()
      requires Valid()
      modifies registers
      ensures Valid() && State() == Opcodes.Op8xy3(old(State()), opcode)
    {
      var x := X(opcode);
      registers[x] := Opcodes.Xor8(registers[x], registers[Y(opcode)]);
    }

    method Op8xy4()
      requires Valid()
      modifies registers
      ensures Valid() && State() == Opcodes.Op8xy4(old(State()), opcode)
    {
      var x, y := X(opcode), Y(opcode);
      var sum := registers[x] as int + registers[y];
      registers[FlagRegister] := Opcodes.Flag(sum > 0xFF);
      registers[x] := Wrap8(sum);
    }

    method Op8xy5()
      requires Valid()
      modifies registers
      ensures Valid() && State() == Opcodes.Op8xy5(old(State()), opcode)
    {
      var x, y := X(opcode), Y(opcode);
      registers[FlagRegister] := Opcodes.Flag(registers[x] >= registers[y]);
      registers[x] := Wrap8(registers[x] as int - registers[y]);
    }

    method Op8xy6()
      requires Valid()
      modifies registers
      ensures Valid() && State() == Opcodes.Op8xy6(old(State()), opcode)
    {
      var x := X(opcode);
      registers[FlagRegister] := registers[x] % 2;
      registers[x] := registers[x] / 2;
    }

    method Op8xy7()
      requires Valid()
      modifies registers
      ensures Valid() && State() == Opcodes.Op8xy7(old(State()), opcode)
    {
      var x, y := X(opcode), Y(opcode);
      registers[FlagRegister] := Opcodes.Flag(registers[y] >= registers[x]);
      registers[x] := Wrap8(registers[y] as int - registers[x]);
    }

    method Op8xyE()
      requires Valid()
      modifies registers
      ensures Valid() && State() == Opcodes.Op8xyE(old(State()), opcode)
    {
      var x := X(opcode);
      registers[FlagRegister] := registers[x] / 0x80;
      registers[x] := Wrap8(registers[x] as int * 2);
    }

    // ---- index, jump with offset, random --------------------------------------

    method OpAnnn()
      requires Valid()
      modifies this`index
      ensures Valid() && State() == Opcodes.OpAnnn(old(State()), opcode)
    {
      index := NNN(opcode);
    }

    method OpBnnn()
      requires Valid()
      modifies this`pc
      ensures Valid() && State() == Opcodes.OpBnnn(old(State()), opcode)
    {
      pc := NNN(opcode) + registers[0];
    }

    /** `rand` stands for the byte the random source returns. */
    method OpCxnn(rand: Byte)
      requires Valid()
      modifies registers
      ensures Valid() && State() == Opcodes.OpCxnn(old(State()), opcode, rand)
    {
      registers[X(opcode)] := Opcodes.And8(rand, NN(opcode));
    }

    // ---- sprite drawing -------------------------------------------------------

    /**
     * XORs the N-row sprite at memory[index..] into the framebuffer at
     * (Vx mod 64, Vy mod 32), skipping cells off the grid and stopping at the
     * end of memory; VF records whether a toggled pixel was on.
     */
    method OpDxyn()
      requires Valid()
      modifies registers, video
      ensures Valid() && State() == Opcodes.OpDxyn(old(State()), opcode)
    {
      ghost var m := State();
      var x, y := X(opcode), Y(opcode);
      var height := N(opcode);
      var xPos := registers[x] % VideoWidth;
      var yPos := registers[y] % VideoHeight;
      registers[FlagRegister] := 0;
      var row := 0;
      while row < height
        invariant 0 <= row <= height
        invariant video[..] == Opcodes.DrawnVideo(m, xPos, yPos, row, 0)
        invariant registers[..] == m.registers[FlagRegister := Opcodes.Flag(Opcodes.CollidedRows(m, xPos, yPos, row))]
      {
        if index + row >= MemSize {
          Opcodes.DrawStopsAtMemoryEnd(m, xPos, yPos, row, height);
          break;
        }
        var sprite := memory[index + row];
        var col := 0;
        while col < 8
          invariant 0 <= col <= 8
          invariant video[..] == Opcodes.DrawnVideo(m, xPos, yPos, row, col)
          invariant registers[..] == m.registers[FlagRegister := Opcodes.Flag(
            Opcodes.CollidedRows(m, xPos, yPos, row) || Opcodes.CollidedInRow(m, xPos, yPos, row, col))]
        {
          Opcodes.DrawCellStep(m, xPos, yPos, row, col);
          var px, py := xPos + col, yPos + row;
          if px < VideoWidth && py < VideoHeight {
            var p := py * VideoWidth + px;
            if Opcodes.SpriteBit(sprite, col) {
              assert Opcodes.CellLit(m, xPos, yPos, row, col) && p == Opcodes.CellPixel(xPos, yPos, row, col);
              if video[p] != 0 {
                registers[FlagRegister] := 1;
              }
              video[p] := Opcodes.Toggle(video[p]);
            } else {
              assert !Opcodes.CellLit(m, xPos, yPos, row, col);
            }
          } else {
            assert !Opcodes.CellLit(m, xPos, yPos, row, col);
          }
          col := col + 1;
        }
        Opcodes.DrawRowStep(m, xPos, yPos, row);
        row := row + 1;
      }
    }

    // ---- keypad ---------------------------------------------------------------

    method OpEx9E()
      requires Valid()
      modifies this`pc
      ensures Valid() && State() == Opcodes.OpEx9E(old(State()), opcode)
    {
      var k := registers[X(opcode)];
      if k < NumKeys && keypad[k] != 0 {
        pc := Wrap16(pc + 2);
      }
    }

    method OpExA1()
      requires Valid()
      modifies this`pc
      ensures Valid() && State() == Opcodes.OpExA1(old(State()), opcode)
    {
      var k := registers[X(opcode)];
      if k < NumKeys && keypad[k] == 0 {
        pc := Wrap16(pc + 2);
      }
    }

    /** Scans the keypad from key 0; the first pressed key goes to Vx, and with none pressed pc moves back. */
    method OpFx0A()
      requires Valid()
      modifies registers, this`pc
      ensures Valid() && State() == Opcodes.OpFx0A(old(State()), opcode)
    {
      var x := X(opcode);
      var pressed := false;
      var i := 0;
      while i < NumKeys
        invariant 0 <= i <= NumKeys
        invariant forall j :: 0 <= j < i ==> keypad[j] == 0
        invariant registers[..] == old(registers[..]) && !pressed
      {
        if keypad[i] != 0 {
          registers[x] := i;
          pressed := true;
          break;
        }
        i := i + 1;
      }
      if !pressed {
        pc := Wrap16(pc - 2);
      }
    }

    // ---- timers, index, font, BCD, register blocks -----------------------------

    method OpFx07()
      requires Valid()
      modifies registers
      ensures Valid() && State() == Opcodes.OpFx07(old(State()), opcode)
    {
      registers[X(opcode)] := delayTimer;
    }

    method OpFx15()
      requires Valid()
      modifies this`delayTimer
      ensures Valid() && State() == Opcodes.OpFx15(old(State()), opcode)
    {
      delayTimer := registers[X(opcode)];
    }

    method OpFx18()
      requires Valid()
      modifies this`soundTimer
      ensures Valid() && State() == Opcodes.OpFx18(old(State()), opcode)
    {
      soundTimer := registers[X(opcode)];
    }

    method OpFx1E()
      requires Valid()
      modifies this`index
      ensures Valid() && State() == Opcodes.OpFx1E(old(State()), opcode)
    {
      var v := registers[X(opcode)];
      if index as int + v < MemSize {
        index := index + v;
      }
    }

    method OpFx29()
      requires Valid()
      modifies this`index
      ensures Valid() && State() == Opcodes.OpFx29(old(State()), opcode)
    {
      var digit := registers[X(opcode)];
      if digit < 16 {
        index := FontsetStartAddress + 5 * digit;
      }
    }

    /** The three writes are unchecked in the interpreter, so the caller must keep index + 2 inside memory. */
    method OpFx33()
      requires Valid() && index + 2 < MemSize
      modifies memory
      ensures Valid() && State() == Opcodes.OpFx33(old(State()), opcode)
    {
      var value := registers[X(opcode)];
      memory[index] := value / 100;
      memory[index + 1] := (value / 10) % 10;
      memory[index + 2] := value % 10;
    }

    method OpFx55()
      requires Valid()
      modifies memory
      ensures Valid() && State() == Opcodes.OpFx55(old(State()), opcode)
    {
      var x := X(opcode);
      var i := 0;
      while i <= x
        invariant 0 <= i <= x + 1
        invariant forall a :: 0 <= a < MemSize ==>
          memory[a] == if index <= a < index + i then registers[a - index] else old(memory[a])
      {
        if index + i < MemSize {
          memory[index + i] := registers[i];
        }
        i := i + 1;
      }
      assert memory[..] == Opcodes.OpFx55(old(State()), opcode).memory;
    }

    method OpFx65()
      requires Valid()
      modifies registers
      ensures Valid() && State() == Opcodes.OpFx65(old(State()), opcode)
    {
      var x := X(opcode);
      var i := 0;
      while i <= x
        invariant 0 <= i <= x + 1
        invariant forall k :: 0 <= k < NumRegisters ==>
          registers[k] == if k < i && index + k < MemSize then memory[index + k] else old(registers[k])
      {
        if index + i < MemSize {
          registers[i] := memory[index + i];
        }
        i := i + 1;
      }
      assert registers[..] == Opcodes.OpFx65(old(State()), opcode).registers;
    }

    // ---- dispatch and the cycle -----------------------------------------------

    /** Runs the handler that dispatch selected for the current instruction word. */
    method Execute(h: Handler, rand: Byte)
      requires Valid()
      requires h == HFx33 ==> index + 2 < MemSize
      modifies registers, memory, stack, video
      modifies this`pc, this`index, this`stackPointer, this`delayTimer, this`soundTimer
      ensures Valid() && State() == Cpu.Execute(h, old(State()), opcode, rand)
    {
      match h
      case H00E0 => Op00E0();
      case H00EE => Op00EE();
      case H1nnn => Op1nnn();
      case H2nnn => Op2nnn();
      case H3xnn => Op3xnn();
      case H4xnn => Op4xnn();
      case H5xy0 => Op5xy0();
      case H6xnn => Op6xnn();
      case H7xnn => Op7xnn();
      case H8xy0 => Op8xy0();
      case H8xy1 => Op8xy1();
      case H8xy2 => Op8xy2();
      case H8xy3 => Op8xy3();
      case H8xy4 => Op8xy4();
      case H8xy5 => Op8xy5();
      case H8xy6 => Op8xy6();
      case H8xy7 => Op8xy7();
      case H8xyE => Op8xyE();
      case H9xy0 => Op9xy0();
      case HAnnn => OpAnnn();
      case HBnnn => OpBnnn();
      case HCxnn => OpCxnn(rand);
      case HDxyn => OpDxyn();
      case HEx9E => OpEx9E();
      case HExA1 => OpExA1();
      case HFx07 => OpFx07();
      case HFx0A => OpFx0A();
      case HFx15 => OpFx15();
      case HFx18 => OpFx18();
      case HFx1E => OpFx1E();
      case HFx29 => OpFx29();
      case HFx33 => OpFx33();
      case HFx55 => OpFx55();
      case HFx65 => OpFx65();
      case HNull =>
    }

    /** Each timer that is non-zero drops by one. */
    method CountDownTimers()
      requires Valid()
      modifies this`delayTimer, this`soundTimer
      ensures Valid() && State() == Cpu.Tick(old(State()))
    {
      if delayTimer > 0 {
        delayTimer := delayTimer - 1;
      }
      if soundTimer > 0 {
        soundTimer := soundTimer - 1;
      }
    }

    /**
     * One cycle: fetch, advance pc, dispatch, run the handler, count the
     * timers down. `rand` is the byte the random source would return to a
     * Cxnn. A cycle that would access an array out of bounds reports the
     * fault and changes no part of the machine state.
     */
    method Cycle(rand: Byte) returns (fault: Option<Cpu.Fault>)
      requires Valid()
      modifies registers, memory, stack, video
      modifies this`pc, this`index, this`stackPointer, this`delayTimer, this`soundTimer, this`opcode
      ensures Valid()
      ensures registers == old(registers) && memory == old(memory) && stack == old(stack)
      ensures video == old(video) && keypad == old(keypad)
      ensures Cpu.Step(old(State()), rand).Stepped? ==>
        fault == None && State() == Cpu.Step(old(State()), rand).next
      ensures Cpu.Step(old(State()), rand).Faulted? ==>
        fault == Some(Cpu.Step(old(State()), rand).fault) && State() == old(State())
    {
      ghost var m := State();
      if pc + 1 >= MemSize {
        Cpu.FetchFault(m, rand);
        return Some(Cpu.FetchBeyondMemory);
      }
      var word := memory[pc] as int * 0x100 + memory[pc + 1];
      assert word == Cpu.Fetch(m);
      match Dispatch(word)
      case Overrun =>
        Cpu.StepOverruns(m, rand);
        return Some(Cpu.TableOverrun);
      case Run(h) =>
        if h == HFx33 && index + 2 >= MemSize {
          Cpu.StepFaultsInHandler(m, rand, h);
          return Some(Cpu.BcdBeyondMemory);
        }
        Cpu.StepRunsHandler(m, rand, h);
        opcode := word;
        pc := Wrap16(pc + 2);
        ghost var pre := State();
        assert pre == m.(pc := Wrap16(m.pc + 2));
        Execute(h, rand);
        ghost var e := State();
        assert e == Cpu.Execute(h, pre, word, rand);
        assert Cpu.Step(m, rand) == Cpu.Stepped(Cpu.Tick(e));
        CountDownTimers();
        return None;
    }
  }
}
