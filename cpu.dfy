/** The processor (`CPU`): one `Tick` samples every component, toggles the
    clock, applies the clock edge to the flip-flops, the registers and the
    RAM, reads ahead the next RAM word and latches it into the instruction
    registers. */
module Cpus {
  import opened Words
  import opened Wrappers
  import opened Alu
  import opened ControlUnit
  import opened TempValues
  import opened Registers
  import opened Memory
  import opened MemoryInterfaces
  import opened Clocks

  /** The three I/O ports A, B and C, one word each; the machine reads an
      input from them and writes an output to them. */
  type Ports = s: seq<Word> | |s| == 3 witness [0, 0, 0]

  const ZERO_PORTS: Ports := [0, 0, 0]

  /** The whole machine state: the clock, the flip-flops, the registers,
      the write latch, the RAM, the two words the processor keeps between
      ticks, the ports and the pixels painted so far. */
  datatype Machine = Machine(
    level: bool,
    frequency: int,
    flops: FlopMap,
    regs: RegsOut,
    latch: bool,
    memory: Image,
    oldRamAddress: Word,
    oldRamValue: Word,
    ports: Ports,
    painted: seq<Pixel>)

  // ---- The steps of `Tick`, as functions of the values they read ----

  /** `FetchControlUnitData`: decode IR0 under the current flags. */
  function FetchCu(regs: RegsOut): CuData {
    GetCuData(regs.ir0, regs.flags)
  }

  /** `PerformALUOperations`: the ALU on the registers the instruction
      names, with the low four bits of `ALU_DATA` as selector and bit 4 as
      enable. */
  function AluFor(cu: CuData, regs: RegsOut): AluData {
    GetAluData(RegValue(regs, cu.srcRA), RegValue(regs, cu.srcRB), cu.aluData % 16, (cu.aluData / 16) % 2 == 1)
  }

  /** The gated register write of `Tick`: the decoded write enable, allowed
      in an extension word, for an ALU operation, for a register-addressed
      access or for an input. */
  function GatedRegWrite(cu: CuData, t: TempOut): bool {
    cu.regWrite && (t.isCurrExt || (cu.aluData / 16) % 2 == 1 || t.regIsCurrAddr || cu.useIn)
  }

  /** `UpdateTemporaryValuesOnClock`'s inputs to the flip-flops. */
  function TempInFor(cu: CuData, t: TempOut, clockSignal: bool): TempIn {
    var jsr := cu.jsr && !t.isCurrJsr;
    TempIn(
      isNxtExt := cu.isNxtExt && !t.isCurrExt,
      containsAddress := jsr || (cu.containsAddress && t.isCurrExt),
      jsr := jsr,
      spChange := cu.spChange && !t.isCurrSpChange && !t.isCurrExt,
      isCurrExt := t.isCurrExt,
      rts := cu.rts,
      regIsAddr := cu.regIsAddress && !t.regIsCurrAddr,
      clockSignal := clockSignal)
  }

  /** The data offered to the general-purpose register: the input port,
      else the previous RAM word for a stack or register-addressed access,
      else IR1 in an extension word, else the ALU result. */
  function GpData(cu: CuData, t: TempOut, regs: RegsOut, alu: AluData, oldRamOut: Word, ioIn: Word): Word {
    if cu.useIn then ioIn
    else if t.isCurrSpChange || t.regIsCurrAddr then oldRamOut
    else if t.isCurrExt then regs.ir1
    else alu.result
  }

  /** The PC clock: high edges only, held while a call, a stack access or a
      register-addressed access is in progress.  The term built from the
      previous RAM word needs a low clock, so it never affects the result:
      the PC clock does not depend on `oldRamOut`. */
  function PcClock(cu: CuData, t: TempOut, oldRamOut: Word, clockSignal: bool, newT: TempOut): (p: bool)
    ensures p <==> clockSignal && !newT.isCurrJsr && !newT.isCurrSpChange && !t.regIsCurrAddr
                   && !(cu.spChange && !t.isCurrExt && !t.isCurrSpChange)
  {
    var regIsAddress := !clockSignal && Opcode(oldRamOut) == 3 && SubOpcode(oldRamOut) == 2;
    var regIsAddr := regIsAddress && !t.regIsCurrAddr;
    var spChange := cu.spChange && !t.isCurrExt && !t.isCurrSpChange;
    clockSignal && !newT.isCurrJsr && !newT.isCurrSpChange && !spChange && !regIsAddr && !t.regIsCurrAddr
  }

  /** The PC load: a taken jump with its address word in IR1, or a return. */
  function WriteToPc(cu: CuData, t: TempOut): bool {
    (cu.loadPC && t.isCurrExt && !t.isCurrJsr && t.isCurrAddr) || cu.rts
  }

  /** `UpdateRegistersOnClock`'s inputs to the register file. */
  function RegsInFor(cu: CuData, t: TempOut, regs: RegsOut, alu: AluData, oldRamOut: Word, clockSignal: bool,
                     newT: TempOut, regWrite: bool, ioIn: Word): RegsInOnChange {
    RegsInOnChange(
      gpData := GpData(cu, t, regs, alu, oldRamOut, ioIn),
      gpClock := if t.isCurrAddr then !clockSignal else clockSignal,
      gpRegWrite := regWrite,
      gpRegToWrite := cu.dstR,
      raRead := cu.srcRA,
      rbRead := cu.srcRB,
      pcClock := PcClock(cu, t, oldRamOut, clockSignal, newT),
      pcData := if cu.rts then oldRamOut else regs.ir1,
      writeToPC := WriteToPc(cu, t),
      spPop := cu.spPop,
      spClock := t.isCurrSpChange && !clockSignal,
      zero := alu.zero,
      negative := alu.negative,
      carry := alu.carry,
      overflow := alu.overflow,
      flagsWrite := cu.flagsWrite,
      flagsClock := clockSignal,
      ramAddrClock := !clockSignal)
  }

  /** `UpdateRAMOnClock`'s write request: a push, or a store in its
      extension word or register-addressed form. */
  function MemWriteFor(cu: CuData, t: TempOut): bool {
    (t.isCurrSpChange && !cu.spPop) || (cu.memWrite && (t.isCurrExt || t.regIsCurrAddr))
  }

  /** `UpdateRegistersOnIdle`'s inputs: outside an extension word IR0 takes
      the RAM word on a low clock; in an extension word IR1 takes it. */
  function IdleInFor(newT: TempOut, newRamValue: Word, ir0: Word, ir1: Word, clockSignal: bool): RegsInOnIdle {
    RegsInOnIdle(
      ir0Clock := clockSignal || newT.isCurrExt || newT.regIsCurrAddr,
      ir1Clock := newT.isCurrExt,
      ir0Write := !newT.isCurrSpChange,
      ir0Data := if newT.isCurrExt then ir0 else newRamValue,
      ir1Data := if newT.isCurrExt then newRamValue else ir1)
  }

  /** The pixel log after a possible paint. */
  function Painted(painted: seq<Pixel>, event: Option<Pixel>): seq<Pixel> {
    if event.Some? then painted + [event.value] else painted
  }

  /** What a tick samples before the clock moves (`previousTemp`,
      `previousRegs`, the decoded instruction, the ALU output and the two
      source registers). */
  datatype Snapshot = Snapshot(temp: TempOut, regs: RegsOut, cu: CuData, alu: AluData, rb: Word, ra: Word)

  function SnapshotOf(m: Machine): Snapshot
    requires WellFormed(m.flops)
  {
    var cu := FetchCu(m.regs);
    Snapshot(Values(m.flops), m.regs, cu, AluFor(cu, m.regs), RegValue(m.regs, cu.srcRB), RegValue(m.regs, cu.srcRA))
  }

  /** Sampling the flip-flops with `GetValues` inserts the misspelt key. */
  function SampleStep(m: Machine): (m': Machine)
    ensures WellFormed(m.flops) ==> WellFormed(m'.flops)
  {
    m.(flops := m.flops[MISSPELT_ADDR_BASE := 0])
  }

  /** The machine after the clock edge, with the clock signal of the edge
      and the flip-flop outputs it produced. */
  datatype Edge = Edge(m: Machine, clockSignal: bool, temp: TempOut)

  /** The clock edge, driven by the snapshot `s`: the clock toggles, the
      flip-flops, the registers and the latch step, a requested write
      reaches the RAM and a write to the screen paints a pixel. */
  function EdgeStep(m: Machine, s: Snapshot): (e: Edge)
    requires WellFormed(m.flops)
    ensures WellFormed(e.m.flops)
    ensures e.m.level == !m.level && e.m.frequency == m.frequency
    ensures m.painted <= e.m.painted && |e.m.painted| <= |m.painted| + 1
  {
    var clockSignal := ClockSignal(!m.level, s.cu.hlt);
    var tempIn := TempInFor(s.cu, s.temp, clockSignal);
    StepMapPerformsFlopStep(m.flops, tempIn);
    var flops := StepMap(m.flops, tempIn);
    var regsIn := RegsInFor(s.cu, s.temp, s.regs, s.alu, m.oldRamValue, clockSignal, Outputs(flops),
                            GatedRegWrite(s.cu, s.temp), m.ports[s.cu.ioPort]);
    var latch := NextLatch(m.latch, s.temp, clockSignal, MemWriteFor(s.cu, s.temp));
    var request := MiOutputs(latch, s.cu, s.regs, s.temp, clockSignal, s.rb, s.ra);
    var m' := m.(level := !m.level, flops := flops, regs := ChangeStep(m.regs, regsIn), latch := latch,
                 memory := Apply(m.memory, request), painted := Painted(m.painted, ApplyEvent(request)));
    Edge(m', clockSignal, Outputs(flops))
  }

  /** After the edge: the next instruction is decoded, the latch is
      evaluated once more with no write request, the word at its address is
      read ahead and latched into the instruction registers (`s` holds IR0
      and IR1 from before the edge), and an output instruction drives its
      port. */
  function FinishStep(m: Machine, s: Snapshot, clockSignal: bool, newTemp: TempOut): (m': Machine)
    requires WellFormed(m.flops)
    ensures WellFormed(m'.flops)
    ensures m'.level == m.level && m'.frequency == m.frequency && m'.painted == m.painted
  {
    var cu := FetchCu(m.regs);
    var temp := Values(m.flops);
    var rb := RegValue(m.regs, cu.srcRB);
    var ra := RegValue(m.regs, cu.srcRA);
    var latch := NextLatch(m.latch, temp, clockSignal, false);
    var request := MiOutputs(latch, cu, m.regs, temp, clockSignal, rb, ra);
    var value := m.memory[request.ramAddress];
    m.(flops := m.flops[MISSPELT_ADDR_BASE := 0],
       regs := IdleStep(m.regs, IdleInFor(newTemp, value, s.regs.ir0, s.regs.ir1, clockSignal)),
       latch := latch,
       oldRamAddress := request.ramAddress,
       oldRamValue := value,
       ports := if cu.useOut then m.ports[cu.ioPort := ra] else m.ports)
  }

  /** One `Tick`: sample, clock edge, read-ahead and idle half.  The
      level toggles; the frequency and the pixels already painted stay. */
  function TickSpec(m: Machine): (m': Machine)
    requires WellFormed(m.flops)
    ensures WellFormed(m'.flops)
    ensures m'.level == !m.level && m'.frequency == m.frequency
    ensures m.painted <= m'.painted && |m'.painted| <= |m.painted| + 1
  {
    var s := SnapshotOf(m);
    var e := EdgeStep(SampleStep(m), s);
    FinishStep(e.m, s, e.clockSignal, e.temp)
  }

  /** The number of ticks `RunFrame` runs: ten per unit of frequency, and
      a single tick when the frequency is 0 or negative. */
  function FrameTicks(frequency: int): nat {
    if frequency * 10 > 0 then frequency * 10 else 1
  }

  /** One tick on any machine state: `TickSpec` where it is defined, and
      on a malformed flip-flop table (a state no `Cpu` holds) only the
      level toggles. */
  function TickAny(m: Machine): (m': Machine)
    ensures m'.frequency == m.frequency && m'.level == !m.level
    ensures m.painted <= m'.painted && |m'.painted| <= |m.painted| + 1
    ensures WellFormed(m.flops) ==> WellFormed(m'.flops)
  {
    if WellFormed(m.flops) then TickSpec(m) else m.(level := !m.level)
  }

  /** `f` applied `n` times. */
  function Iterate<T(!new)>(f: T -> T, x: T, n: nat): T {
    if n == 0 then x else f(Iterate(f, x, n - 1))
  }

  /** Iterating `a` times and then `b` times is iterating `a + b` times. */
  lemma {:induction false} IterateAdd<T(!new)>(f: T -> T, x: T, a: nat, b: nat)
    ensures Iterate(f, Iterate(f, x, a), b) == Iterate(f, x, a + b)
  {
    if b > 0 {
      IterateAdd(f, x, a, b - 1);
    }
  }

  /** `n` ticks in a row. */
  function Ticks(m: Machine, n: nat): Machine {
    Iterate(TickAny, m, n)
  }

  /** Over `n` ticks the frequency is kept, the level toggles `n` times,
      no painted pixel is removed and at most `n` are appended: one screen
      write per tick at most. */
  lemma TicksKeepFrequency(m: Machine, n: nat)
    ensures Ticks(m, n).frequency == m.frequency
    ensures Ticks(m, n).level == ((n % 2 == 1) != m.level)
    ensures m.painted <= Ticks(m, n).painted && |Ticks(m, n).painted| <= |m.painted| + n
  {
    TicksFrequency(m, n);
    TicksLevel(m, n);
    TicksPainted(m, n);
  }

  lemma {:induction false} TicksFrequency(m: Machine, n: nat)
    ensures Ticks(m, n).frequency == m.frequency
  {
    if n > 0 {
      TicksFrequency(m, n - 1);
      assert Ticks(m, n) == TickAny(Ticks(m, n - 1));
    }
  }

  lemma {:induction false} TicksLevel(m: Machine, n: nat)
    ensures Ticks(m, n).level == ((n % 2 == 1) != m.level)
  {
    if n > 0 {
      TicksLevel(m, n - 1);
      assert Ticks(m, n) == TickAny(Ticks(m, n - 1));
      OddAfter(n);
    }
  }

  lemma OddAfter(n: nat)
    requires n > 0
    ensures (n % 2 == 1) == ((n - 1) % 2 != 1)
  {
  }

  lemma {:induction false} TicksPainted(m: Machine, n: nat)
    ensures m.painted <= Ticks(m, n).painted && |Ticks(m, n).painted| <= |m.painted| + n
  {
    if n > 0 {
      TicksPainted(m, n - 1);
      assert Ticks(m, n) == TickAny(Ticks(m, n - 1));
    }
  }

  /** From a well-formed state, one more tick is `TickSpec`. */
  lemma TicksNext(m: Machine, n: nat, p: Machine)
    requires p == Ticks(m, n) && WellFormed(p.flops)
    ensures Ticks(m, n + 1) == TickSpec(p)
  {
  }

  /** Running `a` ticks and then `b` more is running `a + b` ticks: two
      frames in a row are one run of their summed length. */
  lemma TicksAdd(m: Machine, a: nat, b: nat)
    ensures Ticks(Ticks(m, a), b) == Ticks(m, a + b)
  {
    IterateAdd(TickAny, m, a, b);
  }

  /** The ALU request `Init` builds from the first RAM word (`ALU_exec_infos`):
      `16 + sub` for opcode 0, `26` or `27` for opcode 1 with sub 10 or 11,
      else 0. */
  function InitAluInfo(ram0: Word): Byte {
    var opcode := Opcode(ram0);
    var sub := SubOpcode(ram0);
    if opcode == 0 then 16 + sub
    else if opcode == 1 && (sub == 10 || sub == 11) then 26 + (sub - 10)
    else 0
  }

  /** `Init`: IR0 and the remembered RAM word take RAM[0], SP takes 0xFFFF,
      the remembered address goes to 0 and the ports are cleared. */
  function InitSpec(m: Machine): Machine {
    var ram0 := m.memory[0];
    m.(regs := SetReg(SetReg(m.regs, IR0, ram0), SP, 0xFFFF), oldRamValue := ram0, oldRamAddress := 0,
       ports := ZERO_PORTS)
  }

  /** `Reset`: clock low, flip-flops cleared, registers reset (FLAGS
      kept), latch clear and RAM zero, then `Init`. */
  function ResetSpec(m: Machine): Machine {
    InitSpec(m.(level := false, flops := INITIAL_MAP, regs := ResetRegs(m.regs), latch := false,
                memory := seq(ADDRESS_SPACE, i => 0)))
  }

  /** The processor together with the components it drives. */
  class Cpu {
    const clock: Clock
    const temps: TemporaryValues
    const regs: RegisterFile
    const ram: Ram
    const mi: MemoryInterface
    var oldRAMAddress: Word
    var oldRAMvalue: Word
    var ports: Ports
    var painted: seq<Pixel>

    ghost predicate Valid()
      reads this, temps, mi
    {
      mi.ram == ram && ram.memory.Length == ADDRESS_SPACE && temps.Valid()
    }

    /** The machine state the components hold. */
    function State(): Machine
      requires Valid()
      reads this, clock, temps, regs, mi, ram.memory
    {
      Machine(clock.value, clock.frequency, temps.flipflops, regs.GetRegsValues(), mi.writeToRAMFlipFlop,
              ram.memory[..], oldRAMAddress, oldRAMvalue, ports, painted)
    }
  
    /** The processor and fresh components: the clock low, the flip-flops
        and the registers 0, the latch clear, the RAM and the ports zero. */
    constructor ()
      ensures Valid()
      ensures fresh(clock) && fresh(temps) && fresh(regs) && fresh(ram) && fresh(ram.memory) && fresh(mi)
      ensures State() == Machine(false, 0, INITIAL_MAP, ZERO_REGS, false, ZEROS, 0, 0, [0, 0, 0], [])
    {
      clock := new Clock();
      temps := new TemporaryValues();
      regs := new RegisterFile();
      var r := new Ram();
      ram := r;
      mi := new MemoryInterface(r);
      oldRAMAddress, oldRAMvalue := 0, 0;
      ports := [0, 0, 0];
      painted := [];
    }

    /** `FetchControlUnitData`. */
    function FetchControlUnitData(): CuData
      reads regs
    {
      FetchCu(regs.GetRegsValues())
    }

    /** `PerformALUOperations`. */
    function PerformALUOperations(cu: CuData): AluData
      reads regs
    {
      AluFor(cu, regs.GetRegsValues())
    }

    /** `UpdateTemporaryValuesOnClock`. */
    method UpdateTemporaryValuesOnClock(cu: CuData, t: TempOut, clockSignal: bool) returns (out: TempOut)
      requires temps.Valid()
      modifies temps
      ensures temps.Valid()
      ensures temps.flipflops == StepMap(old(temps.flipflops), TempInFor(cu, t, clockSignal))
      ensures out == Outputs(temps.flipflops)
    {
      var tempIn := TempInFor(cu, t, clockSignal);
      out := temps.OnClockChange(tempIn);
    }

    /** `UpdateRegistersOnClock`; the input port is read with `GetIN`. */
    method UpdateRegistersOnClock(cu: CuData, t: TempOut, oldRegs: RegsOut, alu: AluData, oldRamOut: Word,
                                  clockSignal: bool, newT: TempOut, regWrite: bool)
      returns (out: RegsOutOnChange)
      modifies regs
      ensures regs.GetRegsValues()
              == ChangeStep(old(regs.GetRegsValues()),
                            RegsInFor(cu, t, oldRegs, alu, oldRamOut, clockSignal, newT, regWrite, ports[cu.ioPort]))
    {
      var ioDataIn := ports[cu.ioPort];
      var regsIn := RegsInFor(cu, t, oldRegs, alu, oldRamOut, clockSignal, newT, regWrite, ioDataIn);
      out := regs.OnClockChange(regsIn);
    }

    /** `UpdateRAMOnClock`: the latch is updated and a requested write
        reaches the RAM. */
    method UpdateRAMOnClock(cu: CuData, t: TempOut, oldRegs: RegsOut, clockSignal: bool, oldRB: Word, oldRA: Word)
      returns (pixel: Option<Pixel>)
      requires Valid()
      modifies mi, ram.memory
      ensures mi.writeToRAMFlipFlop == NextLatch(old(mi.writeToRAMFlipFlop), t, clockSignal, MemWriteFor(cu, t))
      ensures var d := MiOutputs(mi.writeToRAMFlipFlop, cu, oldRegs, t, clockSignal, oldRB, oldRA);
              ram.memory[..] == Apply(old(ram.memory[..]), d) && pixel == ApplyEvent(d)
    {
      var memWrite := MemWriteFor(cu, t);
      var miData := mi.GetMiData(cu, oldRegs, t, clockSignal, memWrite, oldRB, oldRA);
      pixel := mi.OnClockChange(miData);
    }

    /** `UpdateRegistersOnIdle`. */
    method UpdateRegistersOnIdle(newT: TempOut, newRamValue: Word, ir0Data: Word, ir1Data: Word, clockSignal: bool)
      returns (out: RegsOutOnIdle)
      modifies regs
      ensures regs.GetRegsValues() == IdleStep(old(regs.GetRegsValues()), IdleInFor(newT, newRamValue, ir0Data, ir1Data, clockSignal))
    {
      var regsIn := IdleInFor(newT, newRamValue, ir0Data, ir1Data, clockSignal);
      out := regs.OnClockIdle(regsIn);
    }

    /** The sampling that opens `Tick`. */
    method Sample() returns (s: Snapshot)
      requires Valid()
      modifies temps
      ensures Valid()
      ensures State() == SampleStep(old(State()))
      ensures s == SnapshotOf(old(State()))
    {
      var previousTemp := temps.GetValues();
      var previousRegs := regs.GetRegsValues();
      var previousCu := FetchControlUnitData();
      var previousAlu := PerformALUOperations(previousCu);
      var oldRBValue := regs.GetRegValue(previousCu.srcRB);
      var oldRAValue := regs.GetRegValue(previousCu.srcRA);
      s := Snapshot(previousTemp, previousRegs, previousCu, previousAlu, oldRBValue, oldRAValue);
    }

    /** The clock edge of `Tick`, on the sampled values. */
    method ClockEdge(s: Snapshot) returns (clockSignal: bool, newTemp: TempOut)
      requires Valid()
      modifies this, clock, temps, regs, mi, ram.memory
      ensures Valid()
      ensures Edge(State(), clockSignal, newTemp) == EdgeStep(old(State()), s)
    {
      clock.Increment();
      clockSignal := clock.GetClockSignal(s.cu.hlt);
      var regWrite := GatedRegWrite(s.cu, s.temp);
      newTemp := UpdateTemporaryValuesOnClock(s.cu, s.temp, clockSignal);
      var newRegsValues := UpdateRegistersOnClock(s.cu, s.temp, s.regs, s.alu, oldRAMvalue,
                                                  clockSignal, newTemp, regWrite);
      var pixel := UpdateRAMOnClock(s.cu, s.temp, s.regs, clockSignal, s.rb, s.ra);
      painted := Painted(painted, pixel);
    }

    /** The read-ahead and the idle half of `Tick`. */
    method Finish(s: Snapshot, clockSignal: bool, newTemp: TempOut)
      requires Valid()
      modifies this, temps, regs, mi
      ensures Valid()
      ensures State() == FinishStep(old(State()), s, clockSignal, newTemp)
    {
      var newCu := FetchControlUnitData();
      var newRegsOut := regs.GetRegsValues();
      var newTempOut := temps.GetValues();
      var newRBValue := regs.GetRegValue(newCu.srcRB);
      var newRAValue := regs.GetRegValue(newCu.srcRA);
      var miData := mi.GetMiData(newCu, newRegsOut, newTempOut, clockSignal, false, newRBValue, newRAValue);
      var newRAMValue := ram.Read(miData.ramAddress);
      var regsOutOnIdle := UpdateRegistersOnIdle(newTemp, newRAMValue, s.regs.ir0, s.regs.ir1, clockSignal);
      if newCu.useOut {
        ports := ports[newCu.ioPort := newRAValue];
      }
      oldRAMAddress := miData.ramAddress;
      oldRAMvalue := newRAMValue;
    }

    /** `Tick`. */
    method Tick()
      requires Valid()
      modifies this, clock, temps, regs, mi, ram.memory
      ensures Valid()
      ensures State() == TickSpec(old(State()))
    {
      var s := Sample();
      var clockSignal, newTemp := ClockEdge(s);
      Finish(s, clockSignal, newTemp);
    }

    /** The components hold the state `i` ticks after `start`. */
    ghost predicate Reached(start: Machine, i: nat)
      reads this, clock, temps, regs, mi, ram.memory
    {
      Valid() && State() == Ticks(start, i)
    }

    /** One more tick on a state reached after `i` ticks from `start`. */
    method TickCounted(ghost start: Machine, ghost i: nat)
      requires Reached(start, i)
      modifies this, clock, temps, regs, mi, ram.memory
      ensures Reached(start, i + 1)
    {
      ghost var before := State();
      Tick();
      TicksNext(start, i, before);
    }

    /** The `for` loop of `RunFrame`: `n` calls to `Tick`. */
    method RunTicks(n: nat)
      requires Valid()
      modifies this, clock, temps, regs, mi, ram.memory
      ensures Valid()
      ensures State() == Ticks(old(State()), n)
    {
      ghost var start := State();
      assert start == old(State());
      var i := 0;
      while i < n
        invariant i <= n && Reached(start, i)
      {
        TickCounted(start, i);
        i := i + 1;
      }
      assert i == n;
    }

    /** `RunFrame`: `FrameTicks` ticks, counted from the frequency at the
        start of the frame. */
    method RunFrame()
      requires Valid()
      modifies this, clock, temps, regs, mi, ram.memory
      ensures Valid()
      ensures State() == Ticks(old(State()), FrameTicks(old(clock.frequency)))
    {
      var ticksPerFrame := clock.GetFrequency() * 10;
      if ticksPerFrame > 0 {
        RunTicks(ticksPerFrame);
      } else {
        RunTicks(1);
      }
    }

    /** `Init`. */
    method Init()
      requires Valid()
      modifies this, regs
      ensures Valid()
      ensures State() == InitSpec(old(State()))
    {
      var ram0 := ram.Read(0);
      regs.SetRegValue(IR0, ram0);
      oldRAMvalue := ram0;
      var aluExecInfos := InitAluInfo(ram0);
      var aluOut := GetAluData(0, 0, aluExecInfos % 16, (aluExecInfos / 16) % 2 == 1);
      regs.SetRegValue(SP, 0xFFFF);
      ports := ZERO_PORTS;
      oldRAMAddress := 0;
    }

    /** `Reset`. */
    method Reset()
      requires Valid()
      modifies this, clock, temps, regs, mi, ram.memory
      ensures Valid()
      ensures State() == ResetSpec(old(State()))
    {
      clock.Reset();
      temps.Reset();
      regs.Reset();
      mi.Reset();
      Init();
    }

    /** An input port set from outside (the port panel). */
    method SetInput(port: int, value: Word)
      requires 0 <= port < 3
      modifies this
      ensures ports == old(ports)[port := value] && painted == old(painted)
      ensures oldRAMAddress == old(oldRAMAddress) && oldRAMvalue == old(oldRAMvalue)
    {
      ports := ports[port := value];
    }
  }
}
