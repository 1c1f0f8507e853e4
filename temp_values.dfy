/** The phase flip-flops (`TemporaryValues`): seven one-byte latches, kept in
    a keyed map as the C++ class keeps them, that sequence the multi-word
    instructions. */
module TempValues {
  import opened Words

  /** Inputs of one clock edge (`TempIn`). */
  datatype TempIn = TempIn(
    isNxtExt: bool,
    containsAddress: bool,
    jsr: bool,
    spChange: bool,
    isCurrExt: bool,
    rts: bool,
    regIsAddr: bool,
    clockSignal: bool)

  /** The phase outputs (`TempOut`). */
  datatype TempOut = TempOut(
    isCurrExt: bool,
    isCurrAddrBase: bool,
    isCurrAddr: bool,
    isCurrAddrJsr: bool,
    isCurrSpChange: bool,
    isCurrJsr: bool,
    isCurrRts: bool,
    regIsCurrAddr: bool)

  const DEFAULT_TEMP_IN: TempIn := TempIn(false, false, false, false, false, false, false, false)
  const DEFAULT_TEMP_OUT: TempOut := TempOut(false, false, false, false, false, false, false, false)

  /** The keys the code uses on the `flipflops` map: the seven flip-flops
      and the misspelt key that `GetValues` reads for `isCurrAddrBase`,
      which names no flip-flop. */
  datatype FlopKey =
    | CURRENT_IS_EXT
    | CURRENT_IS_ADDR_BASE
    | CURRENT_IS_ADDR_JSR
    | CURRENT_CHANGES_SP
    | CURRENTLY_JSR
    | CURRENTLY_RTS
    | REG_IS_CURR_ADDR
    | MISSPELT_ADDR_BASE

  /** The string each key stands for. */
  function KeyName(k: FlopKey): string {
    match k
    case CURRENT_IS_EXT => "CURRENT_IS_EXT"
    case CURRENT_IS_ADDR_BASE => "CURRENT_IS_ADDR_BASE"
    case CURRENT_IS_ADDR_JSR => "CURRENT_IS_ADDR_JSR"
    case CURRENT_CHANGES_SP => "CURRENT_CHANGES_SP"
    case CURRENTLY_JSR => "CURRENTLY_JSR"
    case CURRENTLY_RTS => "CURRENTLY_RTS"
    case REG_IS_CURR_ADDR => "REG_IS_CURR_ADDR"
    case MISSPELT_ADDR_BASE => "IS_CURR_ADR_BASE"
  }

  type FlopMap = map<FlopKey, Byte>

  function Bit(b: bool): Byte { if b then 1 else 0 }

  /** The map the C++ class is initialised with and `Reset` reassigns. */
  const INITIAL_MAP: FlopMap := map[
    CURRENT_IS_EXT := 0,
    CURRENT_IS_ADDR_BASE := 0,
    CURRENT_IS_ADDR_JSR := 0,
    CURRENT_CHANGES_SP := 0,
    CURRENTLY_JSR := 0,
    CURRENTLY_RTS := 0,
    REG_IS_CURR_ADDR := 0]

  /** The seven flip-flop keys are present (so every `at` succeeds), and the
      misspelt key, once inserted, holds 0. */
  predicate WellFormed(m: FlopMap) {
    CURRENT_IS_EXT in m && CURRENT_IS_ADDR_BASE in m && CURRENT_IS_ADDR_JSR in m
    && CURRENT_CHANGES_SP in m && CURRENTLY_JSR in m && CURRENTLY_RTS in m
    && REG_IS_CURR_ADDR in m
    && (MISSPELT_ADDR_BASE in m ==> m[MISSPELT_ADDR_BASE] == 0)
  }

  /** A byte entry read as a truth value. */
  predicate On(m: FlopMap, k: FlopKey)
    requires k in m
  {
    m[k] != 0
  }

  /** `OnClockChange`'s stores: with the clock high six entries are
      overwritten in order (CURRENT_IS_EXT reads CURRENTLY_JSR before
      CURRENTLY_JSR is overwritten); with the clock low only
      CURRENT_IS_ADDR_BASE is. */
  function StepMap(m: FlopMap, t: TempIn): FlopMap
    requires WellFormed(m)
  {
    if t.clockSignal then
      m[CURRENT_IS_EXT := Bit(On(m, CURRENTLY_JSR) || t.isNxtExt)]
       [CURRENT_IS_ADDR_JSR := Bit(t.containsAddress)]
       [CURRENT_CHANGES_SP := Bit(t.spChange)]
       [CURRENTLY_JSR := Bit(t.jsr && !t.isCurrExt)]
       [CURRENTLY_RTS := Bit(t.rts)]
       [REG_IS_CURR_ADDR := Bit(t.regIsAddr)]
    else
      m[CURRENT_IS_ADDR_BASE := Bit(t.containsAddress && !t.jsr)]
  }

  /** The outputs of `OnClockChange`, read from the stored map. */
  function Outputs(m: FlopMap): (o: TempOut)
    requires WellFormed(m)
    ensures o.isCurrAddr <==> o.isCurrAddrBase || o.isCurrAddrJsr
  {
    TempOut(
      isCurrExt := On(m, CURRENT_IS_EXT),
      isCurrAddrBase := On(m, CURRENT_IS_ADDR_BASE),
      isCurrAddr := On(m, CURRENT_IS_ADDR_BASE) || On(m, CURRENT_IS_ADDR_JSR),
      isCurrAddrJsr := On(m, CURRENT_IS_ADDR_JSR),
      isCurrSpChange := On(m, CURRENT_CHANGES_SP),
      isCurrJsr := On(m, CURRENTLY_JSR),
      isCurrRts := On(m, CURRENTLY_RTS),
      regIsCurrAddr := On(m, REG_IS_CURR_ADDR))
  }

  /** The outputs of `GetValues` on map `m`: `isCurrAddrBase` is read
      through `operator[]` from the misspelt key. */
  function Values(m: FlopMap): TempOut
    requires WellFormed(m)
  {
    var base := if MISSPELT_ADDR_BASE in m then m[MISSPELT_ADDR_BASE] else 0;
    Outputs(m).(isCurrAddrBase := base != 0)
  }

  /** `GetValues` differs from the outputs of the last edge in
      `isCurrAddrBase` alone, which it always reports as clear. */
  lemma ValuesMissAddrBase(m: FlopMap)
    requires WellFormed(m)
    ensures !Values(m).isCurrAddrBase
    ensures Values(m) == Outputs(m).(isCurrAddrBase := false)
    ensures Values(m).isCurrAddr <==> On(m, CURRENT_IS_ADDR_BASE) || On(m, CURRENT_IS_ADDR_JSR)
  {
  }

  /** The seven flip-flops as booleans: the reference description of the
      update rule. */
  datatype Flops = Flops(
    isExt: bool,          // CURRENT_IS_EXT
    addrBase: bool,       // CURRENT_IS_ADDR_BASE
    addrJsr: bool,        // CURRENT_IS_ADDR_JSR
    changesSp: bool,      // CURRENT_CHANGES_SP
    currentlyJsr: bool,   // CURRENTLY_JSR
    currentlyRts: bool,   // CURRENTLY_RTS
    regIsCurrAddr: bool)  // REG_IS_CURR_ADDR

  const CLEARED: Flops := Flops(false, false, false, false, false, false, false)

  /** The flip-flops a well-formed map holds. */
  function FlopsOf(m: FlopMap): Flops
    requires WellFormed(m)
  {
    Flops(On(m, CURRENT_IS_EXT), On(m, CURRENT_IS_ADDR_BASE), On(m, CURRENT_IS_ADDR_JSR),
          On(m, CURRENT_CHANGES_SP), On(m, CURRENTLY_JSR), On(m, CURRENTLY_RTS),
          On(m, REG_IS_CURR_ADDR))
  }

  /** The update rule on the seven flip-flops: on a high clock every
      flip-flop but CURRENT_IS_ADDR_BASE is reloaded, on a low clock only
      CURRENT_IS_ADDR_BASE is. */
  function FlopStep(f: Flops, t: TempIn): Flops {
    if t.clockSignal then
      f.(isExt := f.currentlyJsr || t.isNxtExt,
         addrJsr := t.containsAddress,
         changesSp := t.spChange,
         currentlyJsr := t.jsr && !t.isCurrExt,
         currentlyRts := t.rts,
         regIsCurrAddr := t.regIsAddr)
    else
      f.(addrBase := t.containsAddress && !t.jsr)
  }

  /** The sequence of stores on the map performs the update rule on the
      flip-flops it holds, and keeps the map well formed. */
  lemma StepMapPerformsFlopStep(m: FlopMap, t: TempIn)
    requires WellFormed(m)
    ensures WellFormed(StepMap(m, t))
    ensures FlopsOf(StepMap(m, t)) == FlopStep(FlopsOf(m), t)
    ensures (MISSPELT_ADDR_BASE in StepMap(m, t)) == (MISSPELT_ADDR_BASE in m)
  {
  }

  /** The outputs of an edge are the updated flip-flops. */
  lemma OutputsOfStep(m: FlopMap, t: TempIn)
    requires WellFormed(m)
    ensures var f := FlopStep(FlopsOf(m), t);
            Outputs(StepMap(m, t)) == TempOut(f.isExt, f.addrBase, f.addrBase || f.addrJsr, f.addrJsr,
                                              f.changesSp, f.currentlyJsr, f.currentlyRts, f.regIsCurrAddr)
  {
    StepMapPerformsFlopStep(m, t);
  }

  /** Entries only ever hold 0 or 1: the initial map does, and the stores
      and the `GetValues` insertion keep it so. */
  lemma EntriesStayBits(m: FlopMap, t: TempIn)
    requires WellFormed(m) && forall k | k in m :: m[k] <= 1
    ensures forall k | k in StepMap(m, t) :: StepMap(m, t)[k] <= 1
    ensures var m' := m[MISSPELT_ADDR_BASE := 0]; forall k | k in m' :: m'[k] <= 1
    ensures forall k | k in INITIAL_MAP :: INITIAL_MAP[k] == 0
  {
  }

  /** The initial map is well formed and holds seven cleared flip-flops. */
  lemma InitialMapCleared()
    ensures WellFormed(INITIAL_MAP) && FlopsOf(INITIAL_MAP) == CLEARED
    ensures MISSPELT_ADDR_BASE !in INITIAL_MAP
  {
  }

  /** With the clock low only CURRENT_IS_ADDR_BASE may change, and it becomes
      `containsAddress && !jsr`. */
  lemma LowEdgeOnlyLoadsAddrBase(f: Flops, t: TempIn)
    requires !t.clockSignal
    ensures FlopStep(f, t).(addrBase := f.addrBase) == f
    ensures FlopStep(f, t).addrBase <==> t.containsAddress && !t.jsr
  {
  }

  /** With the clock high CURRENT_IS_ADDR_BASE keeps its value, and the
      other six flip-flops depend on the inputs and on CURRENTLY_JSR only. */
  lemma HighEdgeKeepsAddrBase(f: Flops, f': Flops, t: TempIn)
    requires t.clockSignal && f.currentlyJsr == f'.currentlyJsr
    ensures FlopStep(f, t).addrBase == f.addrBase
    ensures FlopStep(f, t).(addrBase := f'.addrBase) == FlopStep(f', t)
  {
  }

  /** A subroutine call spans two high edges: the edge that latches
      CURRENTLY_JSR is followed by one that marks the next word as an
      extension word, whatever that edge's `isNxtExt` input says. */
  lemma JsrForcesExtensionWord(f: Flops, t1: TempIn, t2: TempIn)
    requires t1.clockSignal && t1.jsr && !t1.isCurrExt && t2.clockSignal
    ensures FlopStep(f, t1).currentlyJsr
    ensures FlopStep(FlopStep(f, t1), t2).isExt
  {
  }

  /** The phase flip-flops (`TemporaryValues`). */
  class TemporaryValues {
    var flipflops: FlopMap

    ghost predicate Valid()
      reads this
    {
      WellFormed(flipflops)
    }

    /** All seven flip-flops start at 0. */
    constructor ()
      ensures Valid() && flipflops == INITIAL_MAP
    {
      flipflops := INITIAL_MAP;
    }

    /** `GetValues`: reads the flip-flops; `operator[]` on the misspelt key
        inserts it with value 0, which changes none of the seven. */
    method GetValues() returns (out: TempOut)
      requires Valid()
      modifies this
      ensures Valid()
      ensures flipflops == old(flipflops)[MISSPELT_ADDR_BASE := 0]
      ensures out == Values(old(flipflops))
    {
      if MISSPELT_ADDR_BASE !in flipflops {
        flipflops := flipflops[MISSPELT_ADDR_BASE := 0];
      }
      out := TempOut(
        isCurrExt := flipflops[CURRENT_IS_EXT] != 0,
        isCurrAddrBase := flipflops[MISSPELT_ADDR_BASE] != 0,
        isCurrAddr := flipflops[CURRENT_IS_ADDR_BASE] != 0 || flipflops[CURRENT_IS_ADDR_JSR] != 0,
        isCurrAddrJsr := flipflops[CURRENT_IS_ADDR_JSR] != 0,
        isCurrSpChange := flipflops[CURRENT_CHANGES_SP] != 0,
        isCurrJsr := flipflops[CURRENTLY_JSR] != 0,
        isCurrRts := flipflops[CURRENTLY_RTS] != 0,
        regIsCurrAddr := flipflops[REG_IS_CURR_ADDR] != 0);
    }

    /** `OnClockChange`: the flip-flops are overwritten one by one (on a
        local copy that is then stored back). */
    method OnClockChange(t: TempIn) returns (out: TempOut)
      requires Valid()
      modifies this
      ensures Valid()
      ensures flipflops == StepMap(old(flipflops), t)
      ensures out == Outputs(flipflops)
    {
      var m := flipflops;
      if t.clockSignal {
        m := m[CURRENT_IS_EXT := Bit(m[CURRENTLY_JSR] != 0 || t.isNxtExt)];
        m := m[CURRENT_IS_ADDR_JSR := Bit(t.containsAddress)];
        m := m[CURRENT_CHANGES_SP := Bit(t.spChange)];
        m := m[CURRENTLY_JSR := Bit(t.jsr && !t.isCurrExt)];
        m := m[CURRENTLY_RTS := Bit(t.rts)];
        m := m[REG_IS_CURR_ADDR := Bit(t.regIsAddr)];
      } else {
        m := m[CURRENT_IS_ADDR_BASE := Bit(t.containsAddress && !t.jsr)];
      }
      assert m == StepMap(flipflops, t);
      StepMapPerformsFlopStep(flipflops, t);
      flipflops := m;
      out := Outputs(m);
    }

    /** `Reset`: the map is reassigned with the seven keys at 0, which also
        drops the misspelt key. */
    method Reset()
      modifies this
      ensures Valid() && flipflops == INITIAL_MAP
    {
      flipflops := INITIAL_MAP;
    }
  }
}
