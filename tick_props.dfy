/** Properties of one processor tick, stated on the machine state. */
module TickProperties {
  import opened Words
  import opened Alu
  import opened ControlUnit
  import opened TempValues
  import opened Registers
  import opened Memory
  import opened MemoryInterfaces
  import opened Clocks
  import opened Cpus

  /** On a tick that takes the clock low, a write latched by the edge is
      cleared again by the read-ahead's second evaluation of the latch, so
      the latch never stays set across a tick that set it. */
  lemma WriteLatchClearedByReadAhead(m: Machine)
    requires WellFormed(m.flops) && m.level
    ensures EdgeStep(SampleStep(m), SnapshotOf(m)).m.latch ==> !TickSpec(m).latch
  {
    var s := SnapshotOf(m);
    var e := EdgeStep(SampleStep(m), s);
    LatchIsOneShot(e.m.latch, Values(e.m.flops), e.clockSignal, false);
  }

  /** On a tick that takes the clock high without a halt, neither
      evaluation of the latch changes it. */
  lemma LatchHeldOnHighTick(m: Machine)
    requires WellFormed(m.flops) && !m.level && !FetchCu(m.regs).hlt
    ensures TickSpec(m).latch == m.latch
  {
    var s := SnapshotOf(m);
    var e := EdgeStep(SampleStep(m), s);
    LatchIsOneShot(m.latch, s.temp, e.clockSignal, MemWriteFor(s.cu, s.temp));
    LatchIsOneShot(e.m.latch, Values(e.m.flops), e.clockSignal, false);
  }

  /** A halted processor sees no clock: PC, FLAGS and the general-purpose
      registers keep their values. */
  lemma HaltFreezesRegisters(m: Machine)
    requires WellFormed(m.flops) && FetchCu(m.regs).hlt
    ensures TickSpec(m).regs.pc == m.regs.pc
    ensures TickSpec(m).regs.flags == m.regs.flags
    ensures TickSpec(m).regs.gp == m.regs.gp
  {
    var s := SnapshotOf(m);
    var e := EdgeStep(SampleStep(m), s);
    assert !e.clockSignal;
    assert !GatedRegWrite(s.cu, s.temp);
  }

  /** `Init` latches RAM[0] into IR0 and sets SP to 0xFFFF; every other
      register keeps its value. */
  lemma InitState(m: Machine)
    ensures var r := InitSpec(m);
            RegValue(r.regs, IR0) == m.memory[0] && RegValue(r.regs, SP) == 0xFFFF
            && r.oldRamValue == m.memory[0] && r.oldRamAddress == 0
    ensures forall name | 0 <= name < |REGISTER_NAMES| && name != IR0 && name != SP ::
              RegValue(InitSpec(m).regs, name) == RegValue(m.regs, name)
  {
    var once := SetReg(m.regs, IR0, m.memory[0]);
    SetThenGet(once, SP, 0xFFFF, IR0);
    forall name | 0 <= name < |REGISTER_NAMES| && name != IR0 && name != SP
      ensures RegValue(InitSpec(m).regs, name) == RegValue(m.regs, name)
    {
      SetThenGet(m.regs, IR0, m.memory[0], name);
      SetThenGet(once, SP, 0xFFFF, name);
    }
  }

  /** After `Reset` the clock is low, every flip-flop and the latch are
      clear, RAM is zero, PC and IR0 are 0 and SP is 0xFFFF, while FLAGS
      keeps its old value. */
  lemma ResetState(m: Machine)
    ensures var r := ResetSpec(m);
            !r.level && FlopsOf(r.flops) == CLEARED && !r.latch && r.memory == ZEROS
            && r.regs.pc == 0 && r.regs.ir0 == 0 && r.regs.sp == 0xFFFF && r.regs.flags == m.regs.flags
            && r.oldRamAddress == 0 && r.oldRamValue == 0
  {
    InitialMapCleared();
  }

  /** `Init` builds the same ALU request as the decoder, except for the
      register-register sub-opcodes 10-15, which the decoder leaves
      disabled and `Init` turns into 26-31; the ALU result is discarded. */
  lemma InitAluInfoVersusDecoder(w: Word, flags: Byte)
    ensures Opcode(w) == OPC_ALU && SubOpcode(w) >= 10
            ==> InitAluInfo(w) == 16 + SubOpcode(w) && GetCuData(w, flags).aluData == 0
    ensures !(Opcode(w) == OPC_ALU && SubOpcode(w) >= 10) ==> InitAluInfo(w) == GetCuData(w, flags).aluData
  {
  }
}
