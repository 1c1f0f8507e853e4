/** The clock (`Clock`): a level that toggles once per tick, and the
    frequency setting that decides how many ticks a frame runs. */
module Clocks {

  /** The clock signal seen by the machine: the level, held low while the
      processor is halted. */
  function ClockSignal(level: bool, halt: bool): (s: bool)
    ensures s ==> level
    ensures halt ==> !s
    ensures !halt ==> s == level
  {
    level && !halt
  }

  class Clock {
    var value: bool
    var frequency: int

    /** The level starts low and the frequency at 0 (manual stepping). */
    constructor ()
      ensures !value && frequency == 0
    {
      value, frequency := false, 0;
    }

    /** `Increment`: the level toggles. */
    method Increment()
      modifies this
      ensures value == !old(value) && frequency == old(frequency)
    {
      value := !value;
    }

    /** `GetClockSignal`. */
    function GetClockSignal(halt: bool): bool
      reads this
    {
      ClockSignal(value, halt)
    }

    /** `GetFrequency`. */
    function GetFrequency(): int
      reads this
    {
      frequency
    }

    /** `SetFrequency`: the value is stored as given. */
    method SetFrequency(newFrequency: int)
      modifies this
      ensures frequency == newFrequency && value == old(value)
    {
      frequency := newFrequency;
    }

    /** `Reset`: the level goes low; the frequency is kept. */
    method Reset()
      modifies this
      ensures !value && frequency == old(frequency)
    {
      value := false;
    }
  }
}
