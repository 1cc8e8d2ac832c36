/**
 * One interpreter cycle on the value-level machine: fetch the big-endian
 * instruction word at pc, advance pc by two, dispatch through the tables,
 * run the handler and count both timers down. The constructor's initial
 * state and the copy of a program image into memory are here as well.
 *
 * The cases in which the interpreter reads or writes outside one of its
 * arrays have no defined outcome; a cycle that would do so is reported as a
 * fault instead of producing a state.
 */
module Cpu {
  import opened Chip8
  import opened Opcodes

  /** The out-of-bounds accesses a cycle can make. */
  datatype Fault =
    | FetchBeyondMemory          // memory[pc] or memory[pc + 1] with pc + 1 >= 4096
    | TableOverrun               // slot 0xF of a 15-entry secondary table
    | StackPointerBeyondStack    // a return with the stack pointer above 16
    | BcdBeyondMemory            // Fx33 writing memory[index + 2] with index + 2 >= 4096

  datatype StepResult = Stepped(next: State) | Faulted(fault: Fault)

  /** The instruction word at pc: memory[pc] is the high byte, memory[pc + 1] the low byte. */
  function Fetch(m: State): (op: Word16)
    requires m.pc + 1 < MemSize
    ensures op / 0x100 == m.memory[m.pc] && op % 0x100 == m.memory[m.pc + 1]
    ensures HighNibble(op) == m.memory[m.pc] / 0x10 && N(op) == m.memory[m.pc + 1] % 0x10
  {
    m.memory[m.pc] as int * 0x100 + m.memory[m.pc + 1]
  }

  /** Runs one handler on the machine whose pc has already been advanced. */
  function Execute(h: Handler, m: State, op: Word16, rand: Byte): State
    requires h == H00EE ==> m.stackPointer <= StackSize
    requires h == HFx33 ==> m.index + 2 < MemSize
  {
    match h
    case H00E0 => Op00E0(m)
    case H00EE => Op00EE(m)
    case H1nnn => Op1nnn(m, op)
    case H2nnn => Op2nnn(m, op)
    case H3xnn => Op3xnn(m, op)
    case H4xnn => Op4xnn(m, op)
    case H5xy0 => Op5xy0(m, op)
    case H6xnn => Op6xnn(m, op)
    case H7xnn => Op7xnn(m, op)
    case H8xy0 => Op8xy0(m, op)
    case H8xy1 => Op8xy1(m, op)
    case H8xy2 => Op8xy2(m, op)
    case H8xy3 => Op8xy3(m, op)
    case H8xy4 => Op8xy4(m, op)
    case H8xy5 => Op8xy5(m, op)
    case H8xy6 => Op8xy6(m, op)
    case H8xy7 => Op8xy7(m, op)
    case H8xyE => Op8xyE(m, op)
    case H9xy0 => Op9xy0(m, op)
    case HAnnn => OpAnnn(m, op)
    case HBnnn => OpBnnn(m, op)
    case HCxnn => OpCxnn(m, op, rand)
    case HDxyn => OpDxyn(m, op)
    case HEx9E => OpEx9E(m, op)
    case HExA1 => OpExA1(m, op)
    case HFx07 => OpFx07(m, op)
    case HFx0A => OpFx0A(m, op)
    case HFx15 => OpFx15(m, op)
    case HFx18 => OpFx18(m, op)
    case HFx1E => OpFx1E(m, op)
    case HFx29 => OpFx29(m, op)
    case HFx33 => OpFx33(m, op)
    case HFx55 => OpFx55(m, op)
    case HFx65 => OpFx65(m, op)
    case HNull => m
  }

  /** Each timer that is non-zero drops by one. */
  function Tick(m: State): State {
    m.(delayTimer := if m.delayTimer > 0 then m.delayTimer - 1 else 0,
       soundTimer := if m.soundTimer > 0 then m.soundTimer - 1 else 0)
  }

  /** Whether dispatching `h` on `m` (with pc already advanced) would go outside an array. */
  function HandlerFault(h: Handler, m: State): Option<Fault> {
    if h == H00EE && m.stackPointer > StackSize then Some(StackPointerBeyondStack)
    else if h == HFx33 && m.index + 2 >= MemSize then Some(BcdBeyondMemory)
    else None
  }

  /**
   * One cycle. `rand` is the byte the random source would produce if the
   * instruction is Cxnn.
   */
  function Step(m: State, rand: Byte): StepResult {
    if m.pc + 1 >= MemSize then Faulted(FetchBeyondMemory)
    else
      var op := Fetch(m);
      var m1 := m.(pc := Wrap16(m.pc + 2));
      match Dispatch(op)
      case Overrun => Faulted(TableOverrun)
      case Run(h) =>
        match HandlerFault(h, m1)
        case Some(f) => Faulted(f)
        case None => Stepped(Tick(Execute(h, m1, op, rand)))
  }

  /** Zeroed memory with the first `count` font bytes copied to 0x50 onwards. */
  function FontLoaded(count: nat): seq<Byte>
    requires count <= FontsetSize
  {
    seq(MemSize, a requires 0 <= a < MemSize =>
      if FontsetStartAddress <= a < FontsetStartAddress + count then Fontset[a - FontsetStartAddress] else 0)
  }

  /** Copying one more font byte. */
  lemma FontLoadedStep(count: nat)
    requires count < FontsetSize
    ensures FontLoaded(count + 1) == FontLoaded(count)[FontsetStartAddress + count := Fontset[count]]
  {
  }

  /** The state the constructor builds: pc at the program start, the font at 0x50, every other value 0. */
  function Initial(): State {
    Machine(
      FontLoaded(FontsetSize),
      seq(NumRegisters, _ => 0), 0, StartAddress, seq(StackSize, _ => 0), 0, 0, 0,
      seq(VideoSize, _ => 0), seq(NumKeys, _ => 0))
  }

  /** The room for a program: from the start address to the top of memory. */
  const ProgramSpace := MemSize - StartAddress

  function LoadedLength(bytes: seq<Byte>): nat {
    if |bytes| < ProgramSpace then |bytes| else ProgramSpace
  }

  /** The program image copied to memory[0x200..], cut off at the top of memory. */
  function LoadProgram(m: State, bytes: seq<Byte>): State {
    var count := LoadedLength(bytes);
    m.(memory := seq(MemSize, a requires 0 <= a < MemSize =>
         if StartAddress <= a < StartAddress + count then bytes[a - StartAddress] else m.memory[a]))
  }

  /** A cycle that passes the fetch, the dispatch and the handler's bounds check runs the handler and ticks. */
  lemma StepRunsHandler(m: State, rand: Byte, h: Handler)
    requires m.pc + 1 < MemSize && Dispatch(Fetch(m)) == Run(h)
    requires h == H00EE ==> m.stackPointer <= StackSize
    requires h == HFx33 ==> m.index + 2 < MemSize
    ensures Step(m, rand) == Stepped(Tick(Execute(h, m.(pc := Wrap16(m.pc + 2)), Fetch(m), rand)))
  {
    var m1 := m.(pc := Wrap16(m.pc + 2));
    assert HandlerFault(h, m1) == None;
  }

  lemma StepOverruns(m: State, rand: Byte)
    requires m.pc + 1 < MemSize && Dispatch(Fetch(m)) == Overrun
    ensures Step(m, rand) == Faulted(TableOverrun)
  {
  }

  lemma StepFaultsInHandler(m: State, rand: Byte, h: Handler)
    requires m.pc + 1 < MemSize && Dispatch(Fetch(m)) == Run(h)
    requires HandlerFault(h, m).Some?
    ensures Step(m, rand) == Faulted(HandlerFault(h, m).value)
  {
  }

  // ===========================================================================
  // Properties
  // ===========================================================================

  /** The constructor's state: pc, the font and zero everywhere else. */
  lemma InitialLayout()
    ensures var m := Initial();
      && m.pc == StartAddress
      && FontIntact(m)
      && (forall a :: 0 <= a < MemSize && !(FontsetStartAddress <= a < FontsetStartAddress + FontsetSize) ==> m.memory[a] == 0)
      && (forall i :: 0 <= i < VideoSize ==> m.video[i] == 0)
      && (forall i :: 0 <= i < NumRegisters ==> m.registers[i] == 0)
      && (forall i :: 0 <= i < StackSize ==> m.stack[i] == 0)
      && m.index == 0 && m.stackPointer == 0 && m.delayTimer == 0 && m.soundTimer == 0
  {
    var m := Initial();
    assert m.memory[FontsetStartAddress..FontsetStartAddress + FontsetSize] == Fontset;
  }

  /** The fetch faults exactly when pc + 1 is past the end of memory. */
  lemma FetchFault(m: State, rand: Byte)
    ensures Step(m, rand) == Faulted(FetchBeyondMemory) <==> m.pc + 1 >= MemSize
  {
  }

  /** A fetched word whose high nibble is 0, 8 or E and whose low nibble is F reads past its table, and no other word does. */
  lemma TableOverrunFault(m: State, rand: Byte)
    requires m.pc + 1 < MemSize
    ensures Step(m, rand) == Faulted(TableOverrun) <==>
      HighNibble(Fetch(m)) in {0x0, 0x8, 0xE} && N(Fetch(m)) == 0xF
  {
    OverrunExactlyOnLowNibbleF(Fetch(m));
  }

  /** Fx33 faults exactly when index + 2 is past the end of memory. */
  lemma BcdFault(m: State, rand: Byte)
    requires m.pc + 1 < MemSize && Dispatch(Fetch(m)) == Run(HFx33)
    ensures Step(m, rand) == Faulted(BcdBeyondMemory) <==> m.index + 2 >= MemSize
    ensures m.index + 2 < MemSize ==> Step(m, rand).Stepped?
  {
  }

  /** An unassigned instruction word only advances pc by two and counts the timers down. */
  lemma NullInstruction(m: State, rand: Byte)
    requires m.pc + 1 < MemSize && Unassigned(Fetch(m))
    ensures Step(m, rand) == Stepped(m.(pc := m.pc + 2,
      delayTimer := if m.delayTimer > 0 then m.delayTimer - 1 else 0,
      soundTimer := if m.soundTimer > 0 then m.soundTimer - 1 else 0))
  {
    NullExactlyWhenUnassigned(Fetch(m));
    StepRunsHandler(m, rand, HNull);
  }

  /**
   * A cycle whose instruction does not load a timer decrements that timer
   * when it is non-zero and leaves it at 0 otherwise.
   */
  lemma TimersCountDown(m: State, rand: Byte)
    requires Step(m, rand).Stepped?
    ensures var n := Step(m, rand).next;
      && (Dispatch(Fetch(m)) != Run(HFx15) ==> n.delayTimer == if m.delayTimer > 0 then m.delayTimer - 1 else 0)
      && (Dispatch(Fetch(m)) != Run(HFx18) ==> n.soundTimer == if m.soundTimer > 0 then m.soundTimer - 1 else 0)
  {
    var op := Fetch(m);
    var Run(h) := Dispatch(op);
    ExecuteLeavesTimers(h, m.(pc := Wrap16(m.pc + 2)), op, rand);
  }

  lemma ExecuteLeavesTimers(h: Handler, m: State, op: Word16, rand: Byte)
    requires h == H00EE ==> m.stackPointer <= StackSize
    requires h == HFx33 ==> m.index + 2 < MemSize
    ensures var r := Execute(h, m, op, rand);
      && (h != HFx15 ==> r.delayTimer == m.delayTimer)
      && (h != HFx18 ==> r.soundTimer == m.soundTimer)
  {
  }

  /** Fx15 (Fx18) with Vx = v leaves v - 1 in the delay (sound) timer after its own cycle, 0 when v is 0. */
  lemma LoadTimerThenTick(m: State, rand: Byte)
    requires m.pc + 1 < MemSize && Dispatch(Fetch(m)) in {Run(HFx15), Run(HFx18)}
    ensures var v := m.registers[X(Fetch(m))];
      && Step(m, rand).Stepped?
      && (Dispatch(Fetch(m)) == Run(HFx15) ==> Step(m, rand).next.delayTimer == if v > 0 then v - 1 else 0)
      && (Dispatch(Fetch(m)) == Run(HFx18) ==> Step(m, rand).next.soundTimer == if v > 0 then v - 1 else 0)
  {
    StepRunsHandler(m, rand, Dispatch(Fetch(m)).handler);
  }

  /** The invariant that every state reachable from the constructor keeps. */
  predicate Good(m: State) {
    m.index < MemSize && m.stackPointer <= StackSize && Monochrome(m.video)
  }

  lemma ExecuteKeepsGood(h: Handler, m: State, op: Word16, rand: Byte)
    requires Good(m)
    requires h == HFx33 ==> m.index + 2 < MemSize
    ensures Good(Execute(h, m, op, rand))
  {
    match h
    case H00E0 =>
    case H00EE => StackBounds(m, op);
    case H2nnn => StackBounds(m, op);
    case HDxyn => DrawMonochrome(m, op);
    case HFx1E => AddToIndex(m, op);
    case HFx29 => FontAddress(m, op);
    case _ =>
  }

  /**
   * A cycle from a good state either faults or reaches a good state: index
   * stays inside memory, the stack pointer at most 16, every pixel off or on.
   * It never faults on the stack pointer.
   */
  lemma StepKeepsGood(m: State, rand: Byte)
    requires Good(m)
    ensures Step(m, rand) != Faulted(StackPointerBeyondStack)
    ensures Step(m, rand).Stepped? ==> Good(Step(m, rand).next)
  {
    if m.pc + 1 < MemSize {
      var op := Fetch(m);
      var m1 := m.(pc := Wrap16(m.pc + 2));
      if Dispatch(op).Run? && HandlerFault(Dispatch(op).handler, m1).None? {
        ExecuteKeepsGood(Dispatch(op).handler, m1, op, rand);
      }
    }
  }

  lemma InitialGood()
    ensures Good(Initial())
  {
  }

  lemma LoadKeepsGood(m: State, bytes: seq<Byte>)
    requires Good(m)
    ensures Good(LoadProgram(m, bytes))
  {
  }

  /**
   * A call with room on the stack followed by a return at its target brings
   * pc back to the instruction after the call and the stack pointer back to
   * its old value.
   */
  lemma CallThenReturnCycles(m: State, rand: Byte)
    requires m.pc + 1 < MemSize && HighNibble(Fetch(m)) == 0x2
    requires m.stackPointer < StackSize
    requires var t := NNN(Fetch(m)); t + 1 < MemSize && m.memory[t] == 0x00 && m.memory[t + 1] == 0xEE
    ensures Step(m, rand).Stepped?
    ensures var m1 := Step(m, rand).next;
      && m1.pc == NNN(Fetch(m)) && m1.stackPointer == m.stackPointer + 1
      && Step(m1, rand).Stepped?
      && Step(m1, rand).next.pc == m.pc + 2
      && Step(m1, rand).next.stackPointer == m.stackPointer
  {
    var m1 := Step(m, rand).next;
    assert Fetch(m1) == 0x00EE;
  }

  /**
   * Bnnn can jump past the end of memory: BFFF with V0 = 0xFF sets pc to
   * 0x10FE, and the cycle after it faults on the fetch.
   */
  lemma JumpWithOffsetBeyondMemory(m: State, rand: Byte)
    requires m.pc + 1 < MemSize && m.memory[m.pc] == 0xBF && m.memory[m.pc + 1] == 0xFF
    requires m.registers[0] == 0xFF
    ensures Step(m, rand).Stepped? && Step(m, rand).next.pc == 0x10FE
    ensures Step(Step(m, rand).next, rand) == Faulted(FetchBeyondMemory)
  {
    assert Fetch(m) == 0xBFFF;
  }

  /** The load copies min(|bytes|, 0xE00) bytes to 0x200 onwards and changes nothing else. */
  lemma LoadCopies(m: State, bytes: seq<Byte>)
    ensures var r, count := LoadProgram(m, bytes), LoadedLength(bytes);
      && count == (if |bytes| < ProgramSpace then |bytes| else ProgramSpace)
      && StartAddress + count <= MemSize
      && (forall i :: 0 <= i < count ==> r.memory[StartAddress + i] == bytes[i])
      && (forall a :: 0 <= a < MemSize && !(StartAddress <= a < StartAddress + count) ==> r.memory[a] == m.memory[a])
      && r.(memory := m.memory) == m
  {
  }

  /** An image of at least 0xE00 bytes fills memory up to its last address; the rest of the image is dropped. */
  lemma LoadFullImage(m: State, bytes: seq<Byte>)
    requires |bytes| >= ProgramSpace
    ensures var r := LoadProgram(m, bytes);
      r.memory[StartAddress..] == bytes[..ProgramSpace] && r.memory[MemSize - 1] == bytes[ProgramSpace - 1]
  {
  }

  lemma LoadEmpty(m: State)
    ensures LoadProgram(m, []) == m
  {
    assert LoadProgram(m, []).memory == m.memory;
  }

  /** The program area lies above the font, so loading keeps the font intact. */
  lemma LoadKeepsFont(m: State, bytes: seq<Byte>)
    requires FontIntact(m)
    ensures FontIntact(LoadProgram(m, bytes))
  {
    var r := LoadProgram(m, bytes);
    assert r.memory[FontsetStartAddress..FontsetStartAddress + FontsetSize]
        == m.memory[FontsetStartAddress..FontsetStartAddress + FontsetSize];
  }
}
