/** The register file: eight general-purpose 16-bit registers, the stack
    pointer, the program counter, the RAM address register, the two
    instruction registers and the 4-bit flags register. */
module Registers {
  import opened Words
  import opened Wrappers

  /** The value of a 4-bit register. */
  type Nibble = x: int | 0 <= x < 16

  /** The eight general-purpose registers R0..R7. */
  type GpFile = s: seq<Word> | |s| == 8 witness [0, 0, 0, 0, 0, 0, 0, 0]

  /** `RegisterName`: R0..R7 are 0..7, the others follow in this order. */
  const SP: int := 8
  const PC: int := 9
  const FLAGS: int := 10
  const IR0: int := 11
  const IR1: int := 12
  const RAM_ADDRESS: int := 13

  /** The names `RegisterFromString` accepts, at the index of their code. */
  const REGISTER_NAMES: seq<string> := [
    "R0", "R1", "R2", "R3", "R4", "R5", "R6", "R7",
    "SP", "PC", "FLAGS", "IR0", "IR1", "RAM_ADDRESS"]

  /** `RegisterFromString`: the code of the first matching name, or the
      `invalid_argument` error naming the string. */
  method RegisterFromString(reg: string) returns (r: Result<int>)
    ensures r.Success? <==> reg in REGISTER_NAMES
    ensures r.Success? ==> 0 <= r.value < |REGISTER_NAMES| && REGISTER_NAMES[r.value] == reg
                           && forall j | 0 <= j < r.value :: REGISTER_NAMES[j] != reg
    ensures r.Failure? ==> r.error == "Invalid register name: " + reg
  {
    var i := 0;
    while i < |REGISTER_NAMES|
      invariant 0 <= i <= |REGISTER_NAMES|
      invariant forall j | 0 <= j < i :: REGISTER_NAMES[j] != reg
    {
      if REGISTER_NAMES[i] == reg {
        return Success(i);
      }
      i := i + 1;
    }
    return Failure("Invalid register name: " + reg);
  }

  /** `Register16::updateValue`: a reset clears, otherwise the data is kept
      under the all-ones mask. */
  function Update16(data: Word, reset: bool): (v: Word)
    ensures reset ==> v == 0
    ensures !reset ==> v == data
  {
    if reset then 0 else Wrap16(data)
  }

  /** `Register4::updateValue`: a reset clears, otherwise the low four bits
      of the byte are kept (`& 0x0F` written as `% 16`). */
  function Update4(data: Byte, reset: bool): (v: Nibble)
    ensures reset ==> v == 0
    ensures !reset ==> v < 16 && (data - v) % 16 == 0
    ensures !reset && data < 16 ==> v == data
  {
    if reset then 0 else data % 16
  }

  /** The register values (`RegsOut`), also the abstract state of the file. */
  datatype RegsOut = RegsOut(
    gp: GpFile,
    pc: Word,
    sp: Word,
    flags: Nibble,
    ramAddress: Word,
    ir0: Word,
    ir1: Word)

  const ZERO_REGS: RegsOut := RegsOut([0, 0, 0, 0, 0, 0, 0, 0], 0, 0, 0, 0, 0, 0)

  /** Outputs of a clock change (`RegsOutOnChange`). */
  datatype RegsOutOnChange = RegsOutOnChange(ra: Word, rb: Word, pc: Word, sp: Word, flags: Nibble, ramAddress: Word)

  /** Outputs of a clock idle (`RegsOutOnIdle`). */
  datatype RegsOutOnIdle = RegsOutOnIdle(ir0: Word, ir1: Word)

  /** Inputs of a clock change (`RegsInOnChange`). */
  datatype RegsInOnChange = RegsInOnChange(
    gpData: Word, gpClock: bool, gpRegWrite: bool, gpRegToWrite: RegIndex,
    raRead: RegIndex, rbRead: RegIndex,
    pcClock: bool, pcData: Word, writeToPC: bool,
    spPop: bool, spClock: bool,
    zero: bool, negative: bool, carry: bool, overflow: bool,
    flagsWrite: bool, flagsClock: bool,
    ramAddrClock: bool)

  /** Inputs of a clock idle (`RegsInOnIdle`). */
  datatype RegsInOnIdle = RegsInOnIdle(ir0Clock: bool, ir1Clock: bool, ir0Write: bool, ir0Data: Word, ir1Data: Word)

  /** The flags register value: Z in bit 0, N in bit 1, C in bit 2, V in
      bit 3. */
  function PackFlags(z: bool, n: bool, c: bool, v: bool): Nibble {
    B2I(z) + 2 * B2I(n) + 4 * B2I(c) + 8 * B2I(v)
  }

  /** Each flag reads back from its own bit of the packed value. */
  lemma PackFlagsBits(z: bool, n: bool, c: bool, v: bool)
    ensures var f := PackFlags(z, n, c, v);
            f % 2 == B2I(z) && (f / 2) % 2 == B2I(n) && (f / 4) % 2 == B2I(c) && f / 8 == B2I(v)
  {
  }

  /** Reading back the four flags from a packed value gives the flags. */
  lemma {:induction false} PackFlagsInjective(z: bool, n: bool, c: bool, v: bool, z': bool, n': bool, c': bool, v': bool)
    ensures PackFlags(z, n, c, v) == PackFlags(z', n', c', v') <==> z == z' && n == n' && c == c' && v == v'
  {
    var f, f' := PackFlags(z, n, c, v), PackFlags(z', n', c', v');
    if f == f' {
      assert B2I(z) == B2I(z') && B2I(n) == B2I(n') && B2I(c) == B2I(c') && B2I(v) == B2I(v');
    }
  }

  /** The register file after a clock change: the general-purpose write on a
      low clock, the PC and SP updates, the flags load and the RAM address
      load from IR1. */
  function ChangeStep(s: RegsOut, i: RegsInOnChange): RegsOut {
    s.(gp := NextGp(s.gp, i), pc := NextPc(s.pc, i), sp := NextSp(s.sp, i),
       flags := NextFlags(s.flags, i), ramAddress := NextRamAddress(s.ramAddress, s.ir1, i))
  }

  /** The general-purpose write, on a low clock. */
  function NextGp(gp: GpFile, i: RegsInOnChange): GpFile {
    if !i.gpClock && i.gpRegWrite then gp[i.gpRegToWrite := Update16(i.gpData, false)] else gp
  }

  /** The PC load or increment, on a high PC clock. */
  function NextPc(pc: Word, i: RegsInOnChange): Word {
    if i.pcClock then Update16(if i.writeToPC then i.pcData else Wrap16(pc + 1), false) else pc
  }

  /** The SP increment (pop) or decrement (push). */
  function NextSp(sp: Word, i: RegsInOnChange): Word {
    if i.spClock then Update16(if i.spPop then Wrap16(sp + 1) else Wrap16(sp - 1), false) else sp
  }

  /** The flags load. */
  function NextFlags(flags: Nibble, i: RegsInOnChange): Nibble {
    if i.flagsClock && i.flagsWrite then Update4(PackFlags(i.zero, i.negative, i.carry, i.overflow), false) else flags
  }

  /** The RAM address load from IR1. */
  function NextRamAddress(ramAddress: Word, ir1: Word, i: RegsInOnChange): Word {
    if i.ramAddrClock then Update16(ir1, false) else ramAddress
  }

  /** The outputs of a clock change, read after the updates. */
  function ChangeOutputs(s: RegsOut, i: RegsInOnChange): RegsOutOnChange {
    RegsOutOnChange(s.gp[i.raRead], s.gp[i.rbRead], s.pc, s.sp, s.flags, s.ramAddress)
  }

  /** The register file after a clock idle: IR0 loads on a low clock when
      written, IR1 loads on a high clock. */
  function IdleStep(s: RegsOut, i: RegsInOnIdle): RegsOut {
    var ir0 := if !i.ir0Clock && i.ir0Write then Update16(i.ir0Data, false) else s.ir0;
    var ir1 := if i.ir1Clock then Update16(i.ir1Data, false) else s.ir1;
    s.(ir0 := ir0, ir1 := ir1)
  }

  /** `GetRegValue`: the named register, 0 for a code outside the names. */
  function RegValue(s: RegsOut, name: int): Word {
    if 0 <= name < 8 then s.gp[name]
    else if name == SP then s.sp
    else if name == PC then s.pc
    else if name == RAM_ADDRESS then s.ramAddress
    else if name == FLAGS then s.flags
    else if name == IR0 then s.ir0
    else if name == IR1 then s.ir1
    else 0
  }

  /** `SetRegValue`: stores into the named register (FLAGS keeps the low
      four bits, `value & 15`); a code outside the names changes nothing. */
  function SetReg(s: RegsOut, name: int, value: Word): RegsOut {
    if 0 <= name < 8 then s.(gp := s.gp[name := Update16(value, false)])
    else if name == SP then s.(sp := Update16(value, false))
    else if name == PC then s.(pc := Update16(value, false))
    else if name == RAM_ADDRESS then s.(ramAddress := Update16(value, false))
    else if name == FLAGS then s.(flags := Update4(value % 16, false))
    else if name == IR0 then s.(ir0 := Update16(value, false))
    else if name == IR1 then s.(ir1 := Update16(value, false))
    else s
  }

  /** `Reset`: every register but FLAGS is cleared. */
  function ResetRegs(s: RegsOut): RegsOut {
    ZERO_REGS.(flags := s.flags)
  }

  /** A clock change touches only the written general-purpose register and
      leaves the instruction registers alone. */
  lemma ChangeStepFrame(s: RegsOut, i: RegsInOnChange)
    ensures var s' := ChangeStep(s, i);
            s'.ir0 == s.ir0 && s'.ir1 == s.ir1
            && (forall r | 0 <= r < 8 && (r != i.gpRegToWrite || i.gpClock || !i.gpRegWrite) :: s'.gp[r] == s.gp[r])
            && (!i.gpClock && i.gpRegWrite ==> s'.gp[i.gpRegToWrite] == i.gpData)
            && (!i.pcClock ==> s'.pc == s.pc) && (!i.spClock ==> s'.sp == s.sp)
            && (!i.ramAddrClock ==> s'.ramAddress == s.ramAddress)
            && (i.ramAddrClock ==> s'.ramAddress == s.ir1)
            && (!(i.flagsClock && i.flagsWrite) ==> s'.flags == s.flags)
  {
  }

  /** The PC advances by one modulo 2^16 unless a jump loads it. */
  lemma PcAdvances(s: RegsOut, i: RegsInOnChange)
    requires i.pcClock
    ensures !i.writeToPC ==> ChangeStep(s, i).pc == (s.pc + 1) % WORD_MOD
    ensures !i.writeToPC && s.pc == 0xFFFF ==> ChangeStep(s, i).pc == 0
    ensures i.writeToPC ==> ChangeStep(s, i).pc == i.pcData
  {
  }

  /** A push (SP decrements) followed by a pop (SP increments) restores the
      stack pointer, also across the wrap at 0. */
  lemma PushThenPopRestoresSp(s: RegsOut, push: RegsInOnChange, pop: RegsInOnChange)
    requires push.spClock && !push.spPop && pop.spClock && pop.spPop
    ensures ChangeStep(ChangeStep(s, push), pop).sp == s.sp
    ensures s.sp == 0 ==> ChangeStep(s, push).sp == 0xFFFF
  {
  }

  /** The flags register, when loaded, reads back the four ALU flags. */
  lemma FlagsLoadReadsBack(s: RegsOut, i: RegsInOnChange)
    requires i.flagsClock && i.flagsWrite
    ensures var f := ChangeStep(s, i).flags;
            (f % 2 == 1 <==> i.zero) && ((f / 2) % 2 == 1 <==> i.negative)
            && ((f / 4) % 2 == 1 <==> i.carry) && (f / 8 == 1 <==> i.overflow)
  {
    PackFlagsBits(i.zero, i.negative, i.carry, i.overflow);
  }

  /** A clock idle changes the instruction registers only. */
  lemma IdleStepFrame(s: RegsOut, i: RegsInOnIdle)
    ensures var s' := IdleStep(s, i);
            s'.(ir0 := s.ir0, ir1 := s.ir1) == s
            && (!i.ir0Clock && i.ir0Write ==> s'.ir0 == i.ir0Data)
            && (i.ir0Clock || !i.ir0Write ==> s'.ir0 == s.ir0)
            && s'.ir1 == (if i.ir1Clock then i.ir1Data else s.ir1)
  {
  }

  /** Setting a register and reading it back gives the value (FLAGS its low
      four bits), and every other register is unchanged. */
  lemma SetThenGet(s: RegsOut, name: int, value: Word, other: int)
    requires 0 <= name < |REGISTER_NAMES|
    ensures RegValue(SetReg(s, name, value), name) == if name == FLAGS then value % 16 else value
    ensures other != name ==> RegValue(SetReg(s, name, value), other) == RegValue(s, other)
  {
  }

  /** A code outside the register names is read as 0 and written to no
      register. */
  lemma UnknownNameIgnored(s: RegsOut, name: int, value: Word)
    requires !(0 <= name < |REGISTER_NAMES|)
    ensures SetReg(s, name, value) == s && RegValue(s, name) == 0
  {
  }

  /** Reset clears every register except FLAGS, which survives it. */
  lemma ResetKeepsFlags(s: RegsOut)
    ensures forall name | 0 <= name < |REGISTER_NAMES| :: RegValue(ResetRegs(s), name) == if name == FLAGS then s.flags else 0
  {
  }

  /** The register file (`RegisterFile`). */
  class RegisterFile {
    var gpRegs: GpFile
    var pc: Word
    var sp: Word
    var ramAddress: Word
    var ir0: Word
    var ir1: Word
    var flagReg: Nibble

    /** `GetRegsValues`. */
    function GetRegsValues(): RegsOut
      reads this
    {
      RegsOut(gpRegs, pc, sp, flagReg, ramAddress, ir0, ir1)
    }

    /** All registers start at 0. */
    constructor ()
      ensures GetRegsValues() == ZERO_REGS
    {
      gpRegs, pc, sp, ramAddress, ir0, ir1, flagReg := [0, 0, 0, 0, 0, 0, 0, 0], 0, 0, 0, 0, 0, 0;
    }

    /** `OnClockChange`: each register takes the value of its update rule
        (the rules read only the old values and IR1, which no rule writes,
        so the order of the C++ stores does not matter); the outputs are
        read after the stores. */
    method OnClockChange(i: RegsInOnChange) returns (out: RegsOutOnChange)
      modifies this
      ensures GetRegsValues() == ChangeStep(old(GetRegsValues()), i)
      ensures out == ChangeOutputs(GetRegsValues(), i)
    {
      gpRegs := NextGp(gpRegs, i);
      pc := NextPc(pc, i);
      sp := NextSp(sp, i);
      flagReg := NextFlags(flagReg, i);
      ramAddress := NextRamAddress(ramAddress, ir1, i);
      out := RegsOutOnChange(gpRegs[i.raRead], gpRegs[i.rbRead], pc, sp, flagReg, ramAddress);
    }

    /** `OnClockIdle`. */
    method OnClockIdle(i: RegsInOnIdle) returns (out: RegsOutOnIdle)
      modifies this
      ensures GetRegsValues() == IdleStep(old(GetRegsValues()), i)
      ensures out == RegsOutOnIdle(ir0, ir1)
    {
      if !i.ir0Clock && i.ir0Write {
        ir0 := Update16(i.ir0Data, false);
      }
      if i.ir1Clock {
        ir1 := Update16(i.ir1Data, false);
      }
      out := RegsOutOnIdle(ir0, ir1);
    }

    /** `SetRegValue`. */
    method SetRegValue(name: int, value: Word)
      modifies this
      ensures GetRegsValues() == SetReg(old(GetRegsValues()), name, value)
    {
      if 0 <= name < 8 {
        gpRegs := gpRegs[name := Update16(value, false)];
      } else if name == SP {
        sp := Update16(value, false);
      } else if name == PC {
        pc := Update16(value, false);
      } else if name == RAM_ADDRESS {
        ramAddress := Update16(value, false);
      } else if name == FLAGS {
        flagReg := Update4(value % 16, false);
      } else if name == IR0 {
        ir0 := Update16(value, false);
      } else if name == IR1 {
        ir1 := Update16(value, false);
      }
    }

    /** `GetRegValue`. */
    function GetRegValue(name: int): Word
      reads this
    {
      RegValue(GetRegsValues(), name)
    }

    /** `Reset`: the general-purpose, special and instruction registers are
        cleared; the flags register is not among them. */
    method Reset()
      modifies this
      ensures GetRegsValues() == ResetRegs(old(GetRegsValues()))
    {
      gpRegs := [0, 0, 0, 0, 0, 0, 0, 0];
      sp, pc, ramAddress := Update16(0, true), Update16(0, true), Update16(0, true);
      ir0, ir1 := Update16(0, true), Update16(0, true);
    }
  }
}
