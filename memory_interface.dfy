/** The memory interface (`MemoryInterface`): picks the RAM address and the
    data to store, and keeps the one-shot write latch. */
module MemoryInterfaces {
  import opened Words
  import opened Wrappers
  import opened ControlUnit
  import opened Registers
  import opened TempValues
  import opened Memory

  /** `MI_Data`. */
  datatype MiData = MiData(ramAddress: Word, writeToRam: bool, ramClock: bool, ramData: Word)

  /** The RAM address: the stack pointer during a stack access, RB for a
      register-addressed access, the RAM address register for an absolute
      access (not a jump), the PC otherwise. */
  function MiAddress(cu: CuData, regs: RegsOut, t: TempOut, oldRB: Word): Word {
    if (!t.isCurrJsr && t.isCurrAddr && t.isCurrExt && !cu.loadPC) || t.isCurrSpChange || t.regIsCurrAddr then
      if t.isCurrSpChange then regs.sp
      else if t.regIsCurrAddr then oldRB
      else regs.ramAddress
    else
      regs.pc
  }

  /** The write latch after `GetMI_Data`: reloaded only with the clock low,
      cleared during an extension word, otherwise set only if it was clear
      and a write (or a call's return-address push) is pending. */
  function NextLatch(latch: bool, t: TempOut, clockSignal: bool, memWrite: bool): bool {
    if !clockSignal then
      if t.isCurrExt then false else !latch && (memWrite || t.isCurrJsr)
    else
      latch
  }

  /** `GetMI_Data`'s result, given the latch after its update. */
  function MiOutputs(latch: bool, cu: CuData, regs: RegsOut, t: TempOut, clockSignal: bool, oldRB: Word, oldRA: Word): MiData {
    MiData(
      ramAddress := MiAddress(cu, regs, t, oldRB),
      writeToRam := latch || t.regIsCurrAddr,
      ramClock := if t.isCurrSpChange then !clockSignal else clockSignal,
      ramData := if t.isCurrJsr then Wrap16(regs.pc + 2) else oldRA)
  }

  /** The address selection, in its order of priority. */
  lemma AddressPriority(cu: CuData, regs: RegsOut, t: TempOut, oldRB: Word)
    ensures t.isCurrSpChange ==> MiAddress(cu, regs, t, oldRB) == regs.sp
    ensures !t.isCurrSpChange && t.regIsCurrAddr ==> MiAddress(cu, regs, t, oldRB) == oldRB
    ensures !t.isCurrSpChange && !t.regIsCurrAddr && !t.isCurrJsr && t.isCurrAddr && t.isCurrExt && !cu.loadPC
            ==> MiAddress(cu, regs, t, oldRB) == regs.ramAddress
    ensures !t.isCurrSpChange && !t.regIsCurrAddr && !(!t.isCurrJsr && t.isCurrAddr && t.isCurrExt && !cu.loadPC)
            ==> MiAddress(cu, regs, t, oldRB) == regs.pc
  {
  }

  /** The latch only changes with the clock low; there an extension word
      clears it, and it never stays set over two consecutive low-clock
      evaluations. */
  lemma LatchIsOneShot(latch: bool, t: TempOut, clockSignal: bool, memWrite: bool)
    ensures clockSignal ==> NextLatch(latch, t, clockSignal, memWrite) == latch
    ensures !clockSignal && t.isCurrExt ==> !NextLatch(latch, t, clockSignal, memWrite)
    ensures !clockSignal && latch ==> !NextLatch(latch, t, clockSignal, memWrite)
    ensures !clockSignal && !t.isCurrExt && !latch ==> (NextLatch(latch, t, clockSignal, memWrite) <==> memWrite || t.isCurrJsr)
  {
  }

  /** The outputs: a write is requested by the latch or by a
      register-addressed access, the RAM clock is inverted during a stack
      access, and a call stores the return address PC + 2. */
  lemma OutputsMeaning(latch: bool, cu: CuData, regs: RegsOut, t: TempOut, clockSignal: bool, oldRB: Word, oldRA: Word)
    ensures var d := MiOutputs(latch, cu, regs, t, clockSignal, oldRB, oldRA);
            (d.writeToRam <==> latch || t.regIsCurrAddr)
            && (d.ramClock <==> (clockSignal != t.isCurrSpChange))
            && (t.isCurrJsr ==> d.ramData == (regs.pc + 2) % WORD_MOD)
            && (!t.isCurrJsr ==> d.ramData == oldRA)
  {
  }

  /** The RAM after `OnClockChange(d)`. */
  function Apply(mem: Image, d: MiData): Image {
    if d.writeToRam then Store(mem, d.ramAddress, d.ramData, d.ramClock) else mem
  }

  /** The event `OnClockChange(d)` emits. */
  function ApplyEvent(d: MiData): Option<Pixel> {
    if d.writeToRam then WriteEvent(d.ramAddress, d.ramData, d.ramClock) else None
  }

  /** A RAM word changes only when a write is requested and clocked, and
      then only at the chosen address. */
  lemma ApplyChangesOneWord(mem: Image, d: MiData, a: Word)
    ensures Apply(mem, d)[a] != mem[a] ==> d.writeToRam && d.ramClock && a == d.ramAddress
    ensures d.writeToRam && d.ramClock ==> Apply(mem, d)[d.ramAddress] == d.ramData
  {
  }

  class MemoryInterface {
    var writeToRAMFlipFlop: bool
    /** The RAM instance the interface writes to. */
    const ram: Ram

    /** The latch starts clear. */
    constructor (ram: Ram)
      ensures this.ram == ram && !writeToRAMFlipFlop
    {
      this.ram := ram;
      writeToRAMFlipFlop := false;
    }

    /** `GetMI_Data`: updates the latch and reports the RAM request. */
    method GetMiData(cu: CuData, regs: RegsOut, t: TempOut, clockSignal: bool, memWrite: bool, oldRB: Word, oldRA: Word)
      returns (d: MiData)
      modifies this
      ensures writeToRAMFlipFlop == NextLatch(old(writeToRAMFlipFlop), t, clockSignal, memWrite)
      ensures d == MiOutputs(writeToRAMFlipFlop, cu, regs, t, clockSignal, oldRB, oldRA)
    {
      var address;
      if (!t.isCurrJsr && t.isCurrAddr && t.isCurrExt && !cu.loadPC) || t.isCurrSpChange || t.regIsCurrAddr {
        if t.isCurrSpChange {
          address := regs.sp;
        } else if t.regIsCurrAddr {
          address := oldRB;
        } else {
          address := regs.ramAddress;
        }
      } else {
        address := regs.pc;
      }
      if !clockSignal {
        if t.isCurrExt {
          writeToRAMFlipFlop := false;
        } else {
          writeToRAMFlipFlop := !writeToRAMFlipFlop && (memWrite || t.isCurrJsr);
        }
      }
      d := MiData(address, writeToRAMFlipFlop || t.regIsCurrAddr,
                  if t.isCurrSpChange then !clockSignal else clockSignal,
                  if t.isCurrJsr then Wrap16(regs.pc + 2) else oldRA);
    }

    /** `OnClockChange`: passes a requested write on to the RAM. */
    method OnClockChange(d: MiData) returns (pixel: Option<Pixel>)
      requires ram.memory.Length == ADDRESS_SPACE
      modifies ram.memory
      ensures ram.memory[..] == Apply(old(ram.memory[..]), d)
      ensures pixel == ApplyEvent(d)
    {
      pixel := None;
      if d.writeToRam {
        pixel := ram.Write(d.ramAddress, d.ramData, d.ramClock);
      }
    }

    /** `Reset`: the latch is cleared and the RAM zeroed. */
    method Reset()
      requires ram.memory.Length == ADDRESS_SPACE
      modifies this, ram.memory
      ensures !writeToRAMFlipFlop && ram.memory[..] == ZEROS
    {
      writeToRAMFlipFlop := false;
      ram.Reset();
    }
  }
}
