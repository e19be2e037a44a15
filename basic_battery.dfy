/** The DayBreak battery pack (BasicBattery): an initial state derived from a
    state of charge, and the whole-trip bookkeeping that maps a cumulative
    net-energy trace (joules) to stored-energy (Wh), state-of-charge and
    voltage traces. The calibrated pack equations are not part of this model:
    they are passed in as uninterpreted functions. */
module BasicBatteryModel {

  /** Pack constants of the DayBreak car (their values are configuration). */
  datatype PackConstants = PackConstants(
    maxVoltage: real,          // V
    minVoltage: real,          // V
    maxCurrentCapacity: real,  // Ah
    maxEnergyCapacity: real)   // Wh

  /** The calibrated DayBreak equations, left uninterpreted. The two SOC
      equations are the closures the Python code builds from max_current_capacity,
      so they take that capacity as their first argument. */
  datatype PackEquations = PackEquations(
    voltageFromDischargeCapacity: real -> real,
    energyFromDischargeCapacity: real -> real,
    socFromDischargeCapacity: (real, real) -> real,
    dischargeCapacityFromSoc: (real, real) -> real,
    dischargeCapacityFromEnergy: real -> real)

  /** What update_array returns: the SOC, voltage and stored-energy traces. */
  datatype BatteryTrace = BatteryTrace(soc: seq<real>, voltage: seq<real>, storedEnergy: seq<real>)

  /** numpy's clip: the lower bound first, then the upper one. */
  function Clip(x: real, lo: real, hi: real): real
  {
    var y := if x < lo then lo else x;
    if y > hi then hi else y
  }

  /** Stored energy (Wh) after a cumulative energy change given in joules, unclamped. */
  function RawStoredEnergy(storedEnergy: real, cumulativeEnergy: real): real
  {
    storedEnergy + cumulativeEnergy / 3600.0
  }

  /** The stored-energy trace of update_array: shifted, converted to Wh and clipped. */
  function StoredEnergyTrace(storedEnergy: real, maxEnergy: real, cumulative: seq<real>): (r: seq<real>)
    ensures |r| == |cumulative|
    ensures forall i :: 0 <= i < |r| ==>
      var raw := RawStoredEnergy(storedEnergy, cumulative[i]);
      (0.0 <= raw <= maxEnergy ==> r[i] == raw) &&
      (0.0 <= maxEnergy ==> 0.0 <= r[i] <= maxEnergy) &&
      (raw < 0.0 && 0.0 <= maxEnergy ==> r[i] == 0.0) &&
      (raw > maxEnergy && 0.0 <= maxEnergy ==> r[i] == maxEnergy)
  {
    seq(|cumulative|, i requires 0 <= i < |cumulative| =>
      Clip(RawStoredEnergy(storedEnergy, cumulative[i]), 0.0, maxEnergy))
  }

  /** The stored-energy trace of get_raw_soc: the same shift and conversion, no clip. */
  function RawStoredEnergyTrace(storedEnergy: real, cumulative: seq<real>): (r: seq<real>)
    ensures |r| == |cumulative|
    ensures forall i :: 0 <= i < |r| ==> r[i] - storedEnergy == cumulative[i] / 3600.0
  {
    seq(|cumulative|, i requires 0 <= i < |cumulative| => RawStoredEnergy(storedEnergy, cumulative[i]))
  }

  /** Energy discharged (Wh): the capacity minus what is stored, elementwise. */
  function EnergyDischargedTrace(maxEnergy: real, stored: seq<real>): (r: seq<real>)
    ensures |r| == |stored|
    ensures forall i :: 0 <= i < |r| ==> r[i] + stored[i] == maxEnergy
  {
    seq(|stored|, i requires 0 <= i < |stored| => maxEnergy - stored[i])
  }

  /** Discharge capacity (Ah) from energy discharged, elementwise. */
  function DischargeCapacityTrace(eq: PackEquations, discharged: seq<real>): (r: seq<real>)
    ensures |r| == |discharged|
    ensures forall i :: 0 <= i < |r| ==> r[i] == eq.dischargeCapacityFromEnergy(discharged[i])
  {
    seq(|discharged|, i requires 0 <= i < |discharged| => eq.dischargeCapacityFromEnergy(discharged[i]))
  }

  /** SOC from discharge capacity, elementwise. */
  function SocTrace(eq: PackEquations, maxCurrentCapacity: real, capacity: seq<real>): (r: seq<real>)
    ensures |r| == |capacity|
    ensures forall i :: 0 <= i < |r| ==> r[i] == eq.socFromDischargeCapacity(maxCurrentCapacity, capacity[i])
  {
    seq(|capacity|, i requires 0 <= i < |capacity| => eq.socFromDischargeCapacity(maxCurrentCapacity, capacity[i]))
  }

  /** Voltage from discharge capacity, elementwise. */
  function VoltageTrace(eq: PackEquations, capacity: seq<real>): (r: seq<real>)
    ensures |r| == |capacity|
    ensures forall i :: 0 <= i < |r| ==> r[i] == eq.voltageFromDischargeCapacity(capacity[i])
  {
    seq(|capacity|, i requires 0 <= i < |capacity| => eq.voltageFromDischargeCapacity(capacity[i]))
  }

  /** update_array: clipped stored energy, then energy discharged, discharge
      capacity, and from it SOC and voltage. */
  function UpdateArray(eq: PackEquations, maxCurrentCapacity: real, maxEnergy: real,
                       storedEnergy: real, cumulative: seq<real>): (r: BatteryTrace)
    ensures |r.soc| == |cumulative| && |r.voltage| == |cumulative| && |r.storedEnergy| == |cumulative|
    ensures 0.0 <= maxEnergy ==> forall i :: 0 <= i < |cumulative| ==> 0.0 <= r.storedEnergy[i] <= maxEnergy
  {
    var stored := StoredEnergyTrace(storedEnergy, maxEnergy, cumulative);
    var capacity := DischargeCapacityTrace(eq, EnergyDischargedTrace(maxEnergy, stored));
    BatteryTrace(SocTrace(eq, maxCurrentCapacity, capacity), VoltageTrace(eq, capacity), stored)
  }

  /** get_raw_soc: the update_array pipeline without the clip. */
  function RawSoc(eq: PackEquations, maxCurrentCapacity: real, maxEnergy: real,
                  storedEnergy: real, cumulative: seq<real>): (r: seq<real>)
    ensures |r| == |cumulative|
    ensures forall i :: 0 <= i < |r| ==>
      r[i] == eq.socFromDischargeCapacity(maxCurrentCapacity,
                eq.dischargeCapacityFromEnergy(maxEnergy - RawStoredEnergy(storedEnergy, cumulative[i])))
  {
    var stored := RawStoredEnergyTrace(storedEnergy, cumulative);
    SocTrace(eq, maxCurrentCapacity, DischargeCapacityTrace(eq, EnergyDischargedTrace(maxEnergy, stored)))
  }

  /** Every clipped stored energy, and so every energy discharged, lies in [0, capacity]. */
  lemma StoredAndDischargedInRange(storedEnergy: real, maxEnergy: real, cumulative: seq<real>, i: int)
    requires 0.0 <= maxEnergy
    requires 0 <= i < |cumulative|
    ensures 0.0 <= StoredEnergyTrace(storedEnergy, maxEnergy, cumulative)[i] <= maxEnergy
    ensures var stored := StoredEnergyTrace(storedEnergy, maxEnergy, cumulative);
            0.0 <= EnergyDischargedTrace(maxEnergy, stored)[i] <= maxEnergy
  {
  }

  /** With nothing gained or spent, and the initial energy in range, the
      stored-energy trace stays at the initial stored energy. */
  lemma ZeroTraceKeepsStoredEnergy(storedEnergy: real, maxEnergy: real, cumulative: seq<real>)
    requires 0.0 <= storedEnergy <= maxEnergy
    requires forall i :: 0 <= i < |cumulative| ==> cumulative[i] == 0.0
    ensures StoredEnergyTrace(storedEnergy, maxEnergy, cumulative) == seq(|cumulative|, _ => storedEnergy)
  {
  }

  /** Stored energy at a tick never decreases when that tick's cumulative energy grows. */
  lemma StoredEnergyMonotone(storedEnergy: real, maxEnergy: real, a: seq<real>, b: seq<real>, i: int)
    requires |a| == |b| && 0 <= i < |a|
    requires a[i] <= b[i]
    ensures StoredEnergyTrace(storedEnergy, maxEnergy, a)[i] <= StoredEnergyTrace(storedEnergy, maxEnergy, b)[i]
  {
  }

  /** Where the unclipped stored energy is already in range, get_raw_soc and
      update_array report the same SOC. */
  lemma RawSocAgreesInRange(eq: PackEquations, maxCurrentCapacity: real, maxEnergy: real,
                            storedEnergy: real, cumulative: seq<real>, i: int)
    requires 0 <= i < |cumulative|
    requires 0.0 <= RawStoredEnergy(storedEnergy, cumulative[i]) <= maxEnergy
    ensures RawSoc(eq, maxCurrentCapacity, maxEnergy, storedEnergy, cumulative)[i]
         == UpdateArray(eq, maxCurrentCapacity, maxEnergy, storedEnergy, cumulative).soc[i]
  {
  }

  /** A tick that would drain the pack below empty is reported by update_array
      as exactly empty (all of the capacity discharged); one that would
      overcharge it as exactly full. */
  lemma ClippedAtTheBounds(eq: PackEquations, maxCurrentCapacity: real, maxEnergy: real,
                           storedEnergy: real, cumulative: seq<real>, i: int)
    requires 0.0 <= maxEnergy && 0 <= i < |cumulative|
    ensures var stored := StoredEnergyTrace(storedEnergy, maxEnergy, cumulative);
            var raw := RawStoredEnergy(storedEnergy, cumulative[i]);
            (raw < 0.0 ==> stored[i] == 0.0 && EnergyDischargedTrace(maxEnergy, stored)[i] == maxEnergy) &&
            (raw > maxEnergy ==> stored[i] == maxEnergy && EnergyDischargedTrace(maxEnergy, stored)[i] == 0.0)
  {
  }

  /** The pack's initial state, as the constructor derives it from a state of charge. */
  function InitialDischargeCapacity(pack: PackConstants, eq: PackEquations, stateOfCharge: real): real
  {
    eq.dischargeCapacityFromSoc(pack.maxCurrentCapacity, stateOfCharge)
  }

  function InitialStoredEnergy(pack: PackConstants, eq: PackEquations, stateOfCharge: real): real
  {
    pack.maxEnergyCapacity - eq.energyFromDischargeCapacity(InitialDischargeCapacity(pack, eq, stateOfCharge))
  }

  /** For an all-zero trace, update_array reproduces the initial state at every
      tick, PROVIDED the calibrated equations invert each other at the initial
      point (energy->capacity undoes capacity->energy, and capacity->SOC undoes
      SOC->capacity). The equations are uninterpreted, so this is a hypothesis. */
  lemma ZeroTraceKeepsInitialState(pack: PackConstants, eq: PackEquations, stateOfCharge: real,
                                   cumulative: seq<real>)
    requires var dc := InitialDischargeCapacity(pack, eq, stateOfCharge);
             eq.dischargeCapacityFromEnergy(eq.energyFromDischargeCapacity(dc)) == dc &&
             eq.socFromDischargeCapacity(pack.maxCurrentCapacity, dc) == stateOfCharge
    requires 0.0 <= InitialStoredEnergy(pack, eq, stateOfCharge) <= pack.maxEnergyCapacity
    requires forall i :: 0 <= i < |cumulative| ==> cumulative[i] == 0.0
    ensures var dc := InitialDischargeCapacity(pack, eq, stateOfCharge);
            var r := UpdateArray(eq, pack.maxCurrentCapacity, pack.maxEnergyCapacity,
                                 InitialStoredEnergy(pack, eq, stateOfCharge), cumulative);
            r.soc == seq(|cumulative|, _ => stateOfCharge) &&
            r.voltage == seq(|cumulative|, _ => eq.voltageFromDischargeCapacity(dc)) &&
            r.storedEnergy == seq(|cumulative|, _ => InitialStoredEnergy(pack, eq, stateOfCharge))
  {
    var dc := InitialDischargeCapacity(pack, eq, stateOfCharge);
    var e0 := InitialStoredEnergy(pack, eq, stateOfCharge);
    var maxE := pack.maxEnergyCapacity;
    var stored := StoredEnergyTrace(e0, maxE, cumulative);
    ZeroTraceKeepsStoredEnergy(e0, maxE, cumulative);
    var discharged := EnergyDischargedTrace(maxE, stored);
    forall i | 0 <= i < |cumulative|
      ensures discharged[i] == eq.energyFromDischargeCapacity(dc)
    {
      assert stored[i] == e0;
    }
    var capacity := DischargeCapacityTrace(eq, discharged);
    assert forall i :: 0 <= i < |cumulative| ==> capacity[i] == dc;
  }

  /** The DayBreak battery object. update_array and get_raw_soc only read it. */
  class BasicBattery {
    var maxVoltage: real
    var minVoltage: real
    var maxCurrentCapacity: real
    var maxEnergyCapacity: real
    var equations: PackEquations

    var stateOfCharge: real
    var dischargeCapacity: real
    var voltage: real
    var storedEnergy: real

    /** SOC -> discharge capacity -> voltage and stored energy. */
    constructor (stateOfCharge: real, pack: PackConstants, equations: PackEquations)
      ensures maxVoltage == pack.maxVoltage && minVoltage == pack.minVoltage
      ensures maxCurrentCapacity == pack.maxCurrentCapacity && maxEnergyCapacity == pack.maxEnergyCapacity
      ensures this.equations == equations
      ensures this.stateOfCharge == stateOfCharge
      ensures dischargeCapacity == InitialDischargeCapacity(pack, equations, stateOfCharge)
      ensures voltage == equations.voltageFromDischargeCapacity(dischargeCapacity)
      ensures storedEnergy == InitialStoredEnergy(pack, equations, stateOfCharge)
    {
      maxVoltage := pack.maxVoltage;
      minVoltage := pack.minVoltage;
      maxCurrentCapacity := pack.maxCurrentCapacity;
      maxEnergyCapacity := pack.maxEnergyCapacity;
      this.equations := equations;
      this.stateOfCharge := stateOfCharge;
      var capacity := equations.dischargeCapacityFromSoc(pack.maxCurrentCapacity, stateOfCharge);
      dischargeCapacity := capacity;
      voltage := equations.voltageFromDischargeCapacity(capacity);
      storedEnergy := pack.maxEnergyCapacity - equations.energyFromDischargeCapacity(capacity);
    }

    /** update_array on this battery's stored energy and capacity. */
    function UpdateTrace(cumulative: seq<real>): (r: BatteryTrace)
      reads this
      ensures |r.soc| == |cumulative| && |r.voltage| == |cumulative| && |r.storedEnergy| == |cumulative|
      ensures 0.0 <= maxEnergyCapacity ==>
        forall i :: 0 <= i < |cumulative| ==> 0.0 <= r.storedEnergy[i] <= maxEnergyCapacity
    {
      UpdateArray(equations, maxCurrentCapacity, maxEnergyCapacity, storedEnergy, cumulative)
    }

    /** get_raw_soc on this battery's stored energy and capacity. */
    function GetRawSoc(cumulative: seq<real>): (r: seq<real>)
      reads this
      ensures |r| == |cumulative|
      ensures forall i :: 0 <= i < |r| ==>
        r[i] == equations.socFromDischargeCapacity(maxCurrentCapacity,
                  equations.dischargeCapacityFromEnergy(maxEnergyCapacity - RawStoredEnergy(storedEnergy, cumulative[i])))
      ensures forall i :: 0 <= i < |r| && 0.0 <= RawStoredEnergy(storedEnergy, cumulative[i]) <= maxEnergyCapacity ==>
        r[i] == UpdateTrace(cumulative).soc[i]
    {
      RawSoc(equations, maxCurrentCapacity, maxEnergyCapacity, storedEnergy, cumulative)
    }
  }
}
