/** The low-voltage system (BasicLVS): a constant-power parasitic draw. The
    object remembers only the energy of its most recent query. */
module BasicLvsModel {

  /** Energy drawn over a tick: current x voltage x elapsed time. */
  function LvsEnergy(current: real, voltage: real, tick: real): real
  {
    current * voltage * tick
  }

  /** No time passed, no energy drawn. */
  lemma ZeroTickDrawsNothing(current: real, voltage: real)
    ensures LvsEnergy(current, voltage, 0.0) == 0.0
  {
  }

  /** The draw over two ticks back to back is the sum of the two draws. */
  lemma LvsEnergyAdditive(current: real, voltage: real, a: real, b: real)
    ensures LvsEnergy(current, voltage, a + b) == LvsEnergy(current, voltage, a) + LvsEnergy(current, voltage, b)
  {
  }

  class BasicLvs {
    /** The DayBreak LVS current (A) and voltage (V), fixed by the car's configuration. */
    const lvsCurrent: real
    const lvsVoltage: real
    /** Energy of the most recent get_consumed_energy call. */
    var consumedEnergy: real

    constructor (consumedEnergy: real, lvsCurrent: real, lvsVoltage: real)
      ensures this.consumedEnergy == consumedEnergy
      ensures this.lvsCurrent == lvsCurrent && this.lvsVoltage == lvsVoltage
    {
      this.consumedEnergy := consumedEnergy;
      this.lvsCurrent := lvsCurrent;
      this.lvsVoltage := lvsVoltage;
    }

    /** Overwrites (does not accumulate into) consumedEnergy and returns it: the
        result depends on the tick alone, never on earlier calls. */
    method GetConsumedEnergy(tick: real) returns (energy: real)
      modifies this`consumedEnergy
      ensures energy == LvsEnergy(lvsCurrent, lvsVoltage, tick)
      ensures consumedEnergy == energy
    {
      consumedEnergy := lvsCurrent * lvsVoltage * tick;
      energy := consumedEnergy;
    }
  }
}
