# Solar-car simulator core, modelled in Dafny

This project models four small sequential pieces of a solar-car race simulator
and proves properties of them:

- **BasicBattery** (`basic_battery.dfy`). This is the DayBreak battery pack.
  - The constructor derives the initial discharge capacity, voltage and stored
    energy from a state of charge (SOC).
  - `update_array` turns a cumulative net-energy trace (J) into stored energy
    (Wh, clipped to `[0, max_energy_capacity]`). From that it derives the
    energy-discharged, discharge-capacity, SOC and voltage traces.
  - `get_raw_soc` runs the same pipeline without the clip.
  - The pack constants and the calibrated equations are parameters: the
    `PackConstants` and `PackEquations` values.
- **BasicLVS** (`basic_lvs.dfy`). This is the low-voltage system's parasitic
  draw. `get_consumed_energy` overwrites the object's `consumed_energy` field
  with current × voltage × tick and returns it.
- **OpenweatherSolarCalculations** (`solar_calculations.dfy`). These are the
  irradiance combinators:
  - the hour angle and the zenith angle;
  - the clamp of the azimuth's arcsin argument;
  - DNI, masked to 0 below the horizon;
  - DHI = 0.1 · DNI;
  - GHI = DNI · cos(zenith) + DHI;
  - the validated cloud-cover attenuation;
  - the best of the discrete mount angles {0, 15, 30, 45} while charging stationary;
  - the per-tick choice between the stationary and the driving irradiance;
  - the clock-to-hours conversion.

  Trigonometry, powers, the floating-point reciprocal in the air mass and the
  solar-geometry helpers are left uninterpreted: they are the function-typed
  fields of a `SolarMath` value. The only facts assumed about them are
  `pow(0, 3.4) = 0` and `pow(1, 3.4) = 1` (`PowerFacts`).
- **The command-line front end of `run_simulation.py`** (`run_simulation.dfy`,
  with `py_strings.dfy` for the Python string operations it uses).
  - `SimulationSettings` is a class; its `Value()` is the `Settings` datatype.
  - `valid_commands` is the whitelist.
  - `identify_invalid_commands` is a loop that returns early on the first
    unknown identifier.
  - `parse_commands` is a loop that assigns the settings object field by field
    and raises on a bad value. Each Python exception is an error value of
    `ParseError`, and the program's help-and-exit path is the outcome `ShowHelp`.
  - Each loop is proved against a reference function: `FirstInvalid` for
    the validator, and `ApplyArgument`, `ApplyArguments` and `CommandOutcome`
    for the parser.
  - `str.split('=')` is `PyStrings.Split`. It has a proved inverse, `Join`.
  - `int()` on a decimal string is `PyStrings.ParseInt`. `int(str(n)) == n`
    is proved (`ParseIntOfIntToString`), and so is the value of the spellings
    `str()` never writes: leading zeros and an explicit sign (`OtherSpellings`).

`results.dfy` holds the `Option` and `Result` datatypes.

Two points where the program's behaviour is easy to misread:

- **Clipping in `update_array`.** `update_array` clips stored energy, not SOC.
  A tick that would drain the pack below empty reports stored energy 0 and
  energy discharged equal to the capacity (`ClippedAtTheBounds`); the SOC at
  full discharge is whatever the calibrated equations give there.
- **`-granularity`.** The help text (run_simulation.py:190-192) describes
  granularity as a count (1 hourly, 2 bi-hourly), but `parse_commands` stores
  the raw text of the value (run_simulation.py:278, `GranularityText`). The
  integer 1 is only the default (`GranularityCount(1)`).

## Model

| member | source | states |
|---|---|---|
| BasicBatteryModel.BasicBattery.constructor | simulation/model/car/battery/basic_battery.py:34-63 | The pack constants and equations are stored. The SOC is kept as given. Discharge capacity is `InitialDischargeCapacity` (`dc_from_soc(max_current_capacity, soc)`), voltage is `v_from_dc(dc)`, and stored energy is `InitialStoredEnergy` (`max_energy_capacity − e_from_dc(dc)`), the same initial state `ZeroTraceKeepsInitialState` speaks of. |
| BasicBatteryModel.StoredEnergyTrace | simulation/model/car/battery/basic_battery.py:85-87 | Same length as the input. Element i is `stored + cum[i]/3600` when that lies in `[0, max]`, 0 when it is below, and `max` when it is above. With a non-negative capacity, every element lies in `[0, max]`. |
| BasicBatteryModel.RawStoredEnergyTrace | simulation/model/car/battery/basic_battery.py:112-113 | Same length as the input. Each element differs from the initial stored energy by exactly `cum[i]/3600`, with no clip. |
| BasicBatteryModel.EnergyDischargedTrace | simulation/model/car/battery/basic_battery.py:89-90 | Energy discharged plus stored energy equals the capacity, element by element. |
| BasicBatteryModel.UpdateArray | simulation/model/car/battery/basic_battery.py:70-97 | The SOC, voltage and stored-energy traces each have the input's length. The stored energy lies in `[0, max_energy_capacity]`. |
| BasicBatteryModel.RawSoc | simulation/model/car/battery/basic_battery.py:99-121 | The raw SOC trace has the input's length, and element i is `soc_from_dc(max_current_capacity, dc_from_e(max − (stored + cum[i]/3600)))`: the `update_array` pipeline on the unclipped stored energy. |
| BasicBatteryModel.BasicBattery.UpdateTrace | simulation/model/car/battery/basic_battery.py:70-97 | `update_array` on this battery only reads the object. It gives three traces of the input's length, with stored energy in `[0, max_energy_capacity]`. |
| BasicBatteryModel.BasicBattery.GetRawSoc | simulation/model/car/battery/basic_battery.py:99-121 | `get_raw_soc` on this battery only reads the object, keeps the trace length, gives element i through the equations from the unclipped stored energy, and agrees with `update_array`'s SOC wherever that stored energy lies in `[0, max_energy_capacity]`. |
| BasicBatteryModel.StoredAndDischargedInRange | simulation/model/car/battery/basic_battery.py:87-90 | Every stored energy, and so every energy discharged, lies in `[0, max_energy_capacity]`. |
| BasicBatteryModel.ClippedAtTheBounds | simulation/model/car/battery/basic_battery.py:87-90 | A tick that would drain the pack below empty reports stored 0 and discharged = capacity. A tick that would overcharge it reports stored = capacity and discharged 0. |
| BasicBatteryModel.ZeroTraceKeepsStoredEnergy | simulation/model/car/battery/basic_battery.py:85-87 | For an all-zero trace with the initial energy in range, the stored-energy trace is constantly the initial stored energy. |
| BasicBatteryModel.StoredEnergyMonotone | simulation/model/car/battery/basic_battery.py:86-87 | Stored energy at a tick never decreases when that tick's cumulative energy grows. |
| BasicBatteryModel.RawSocAgreesInRange | simulation/model/car/battery/basic_battery.py:112-119 | Where the unclipped stored energy is within `[0, max]`, `get_raw_soc` and `update_array` give the same SOC. |
| BasicBatteryModel.ZeroTraceKeepsInitialState | simulation/model/car/battery/basic_battery.py:56-95 | Take a freshly built pack and an all-zero trace, and suppose the calibrated equations invert each other at the initial point. Then `update_array` reports the initial SOC, voltage and stored energy at every tick. |
| BasicLvsModel.BasicLvs.constructor | simulation/model/car/lvs/basic_lvs.py:7-8 | The consumed energy starts at the given value. The LVS current and voltage are fixed. |
| BasicLvsModel.BasicLvs.GetConsumedEnergy | simulation/model/car/lvs/basic_lvs.py:10-20 | It returns current × voltage × tick, overwrites `consumed_energy` with that value and changes nothing else. The result depends on the tick alone. |
| BasicLvsModel.ZeroTickDrawsNothing | simulation/model/car/lvs/basic_lvs.py:19 | A zero tick draws zero energy. |
| BasicLvsModel.LvsEnergyAdditive | simulation/model/car/lvs/basic_lvs.py:19 | The draw is additive in the tick: `E(a + b) = E(a) + E(b)`. |
| SolarCalculations.HourAngle | simulation/model/environment/solar_calculations/OpenweatherSolarCalculations.py:49-54 | The UTC offset is converted from seconds to hours. The result is 15° per hour away from apparent solar noon (`r/15 + 12 = lst`). It is 0 exactly at solar noon, negative exactly before and positive exactly after. |
| SolarCalculations.ElevationAngle | simulation/model/environment/solar_calculations/OpenweatherSolarCalculations.py:56-90 | The elevation is computed from the day's declination, the hour angle and the latitude; at apparent solar noon (hour angle 0) it depends on the day and latitude alone. |
| SolarCalculations.ZenithAngle | simulation/model/environment/solar_calculations/OpenweatherSolarCalculations.py:111-114 | Zenith plus elevation is 90°. The zenith exceeds 90° exactly when the elevation is negative. |
| SolarCalculations.ClampToUnit | simulation/model/environment/solar_calculations/OpenweatherSolarCalculations.py:152-155 | The result lies in `[-1, 1]`. It is unchanged inside that range, −1 below it and 1 above it. |
| SolarCalculations.AzimuthArgument | simulation/model/environment/solar_calculations/OpenweatherSolarCalculations.py:135-155 | The arcsin argument is defined exactly when cos(elevation) ≠ 0. It then lies in `[-1, 1]`. |
| SolarCalculations.AzimuthAngle | simulation/model/environment/solar_calculations/OpenweatherSolarCalculations.py:157-159 | The azimuth is defined exactly when its argument is. It is the arcsin of a value in `[-1, 1]`. |
| SolarCalculations.Dni | simulation/model/environment/solar_calculations/OpenweatherSolarCalculations.py:186-202 | DNI is exactly 0 when the zenith exceeds 90°. Otherwise it is the clear-sky air-mass formula at the site's altitude. |
| SolarCalculations.Dhi | simulation/model/environment/solar_calculations/OpenweatherSolarCalculations.py:225-230 | DHI is one tenth of DNI. |
| SolarCalculations.IrradianceFromDni | simulation/model/environment/solar_calculations/OpenweatherSolarCalculations.py:263 | The global irradiance at an angle is `DNI · (cos(angle) + 0.1)`. |
| SolarCalculations.ApplyCloudCover | simulation/model/environment/solar_calculations/OpenweatherSolarCalculations.py:284-291 | It fails exactly when some cloud cover lies outside `[0, 100]`. Otherwise every element is `GHI · (1 − 0.75 (cover/100)^3.4)`. |
| SolarCalculations.CloudCoverExtremes | simulation/model/environment/solar_calculations/OpenweatherSolarCalculations.py:286-291 | A cover of 0 leaves GHI unchanged. A cover of 100 leaves exactly a quarter of it. |
| SolarCalculations.CalculateGhi | simulation/model/environment/solar_calculations/OpenweatherSolarCalculations.py:254-265 | It succeeds exactly when the cloud cover is valid. It then gives, for every sample, the cloud-attenuated `DNI · cos(zenith) + DHI`. |
| SolarCalculations.EffectiveZenith | simulation/model/environment/solar_calculations/OpenweatherSolarCalculations.py:384-387 | The minimum of `|zenith − angle|` over the mount angles. It is non-negative, no larger than any difference, and attained by some mount angle. |
| SolarCalculations.EffectiveZenithOfMounts | simulation/model/environment/solar_calculations/OpenweatherSolarCalculations.py:351-387 | Over {0, 15, 30, 45}, the effective zenith is never above the true zenith. It equals the true zenith when the sun is within 7.5° of overhead. |
| SolarCalculations.AngledIrradiance | simulation/model/environment/solar_calculations/OpenweatherSolarCalculations.py:374-393 | It succeeds exactly when the cloud cover is valid. It then gives, for every sample, the cloud-attenuated GHI formula at the effective zenith. |
| SolarCalculations.BelowHorizonIsDark | simulation/model/environment/solar_calculations/OpenweatherSolarCalculations.py:202-230 | Below the horizon DNI and DHI are 0. So are the driving and the stationary irradiance, whatever the clouds or the mount. |
| SolarCalculations.FlatMountNearZenith | simulation/model/environment/solar_calculations/OpenweatherSolarCalculations.py:384-391 | Within 7.5° of the zenith, the stationary array gets exactly the driving GHI. |
| SolarCalculations.DateConvert | simulation/model/environment/solar_calculations/OpenweatherSolarCalculations.py:301-313 | The fractional hour times 3600 is the seconds since midnight. For a valid clock time it lies in `[hour, hour + 1)` and below 24. |
| SolarCalculations.RouteSamples | simulation/model/environment/solar_calculations/OpenweatherSolarCalculations.py:334-340 | There is one sample per route point. Each takes that point's latitude, longitude, time zone and elevation, and the day and hour that the time helper gives for its time. |
| SolarCalculations.CalculateArrayGhi | simulation/model/environment/solar_calculations/OpenweatherSolarCalculations.py:315-348 | It succeeds exactly when the cloud cover is valid. The result then has one value per route point. |
| SolarCalculations.ArrayGhiSelectsPerTick | simulation/model/environment/solar_calculations/OpenweatherSolarCalculations.py:343-346 | At a tick where the car is not driving, the value is the stationary (angled) irradiance. At a tick where it is driving, the value is the driving GHI. |
| PyStrings.Split | simulation/run_simulation.py:217 | `str.split` gives at least one piece, and no piece contains the separator. |
| PyStrings.JoinSplit | simulation/run_simulation.py:217 | Joining the pieces of a split with the separator gives back the string. |
| PyStrings.SplitJoin | simulation/run_simulation.py:217 | Splitting the join of separator-free pieces gives back the pieces. |
| PyStrings.SplitAtFirstSeparator | simulation/run_simulation.py:250 | The first separator ends the first piece, and the rest splits on its own. |
| PyStrings.ParseInt | simulation/run_simulation.py:264 | `int()` succeeds exactly on an optional sign followed by at least one decimal digit (with no limit on the number of digits; see "## Left out"). |
| PyStrings.ParseIntOfIntToString | simulation/run_simulation.py:264 | `int(str(n)) == n` for every integer (in CPython, only those with at most 4300 digits). |
| PyStrings.OtherSpellings | simulation/run_simulation.py:264 | For a digit string `d`, `int('0'+d)` and `int('+'+d)` equal `int(d)`, and `int('-'+d)` is its negation (in CPython, only below the 4300-digit limit). |
| RunSimulation.SimulationSettings.constructor | simulation/run_simulation.py:28-36 | The settings object holds exactly the seven given values. |
| RunSimulation.IdentifierIsPrefix | simulation/run_simulation.py:217-218 | The identifier is a prefix of the argument without '='. It is either the whole argument or followed by the first '='. |
| RunSimulation.ValueIsSecondSegment | simulation/run_simulation.py:250-278 | In `id=v` and `id=v=tail`, the identifier is `id` and the value is `v`, the segment between the first and the second '='. |
| RunSimulation.NoValueWithoutSeparator | simulation/run_simulation.py:250-253 | An argument without '=' is all identifier and has no value. |
| RunSimulation.WhitelistDecides | simulation/run_simulation.py:198 | A command `id` or `id=v` is reported by the validator exactly when `id` is not one of the eight whitelisted identifiers, whatever its value. |
| RunSimulation.AllValidIffEveryArgumentPasses | simulation/run_simulation.py:211-221 | The validator reports nothing exactly when every argument is non-empty and is either not a command or has a whitelisted identifier. |
| RunSimulation.FirstInvalidAt | simulation/run_simulation.py:211-219 | Otherwise it reports the first argument that fails. That is its identifier if it is a command, or the empty argument that cannot be inspected. |
| RunSimulation.IdentifyInvalidCommands | simulation/run_simulation.py:201-221 | The loop with early return computes exactly `FirstInvalid`. |
| RunSimulation.FailurePersists | simulation/run_simulation.py:246-278 | Once a prefix of the arguments raises, the whole parse raises the same error. |
| RunSimulation.ParseCommands | simulation/run_simulation.py:224-280 | The outcome is `CommandOutcome`. Help comes first, then the first invalid identifier (before any setting is applied), then the first bad value. On success, the fresh settings object holds the parsed settings. |
| RunSimulation.NonCommandsKeepSettings | simulation/run_simulation.py:247-248 | Arguments that do not start with '-' leave the settings alone. |
| RunSimulation.NoCommandsGiveDefaults | simulation/run_simulation.py:234-248 | Without a single command, the result is the defaults: ASC, golang on, time_taken, 5 iterations, no visualisation, not verbose, granularity 1. |
| RunSimulation.UnknownCommandReportedFirst | simulation/run_simulation.py:242-243 | An unknown identifier is reported even when an earlier argument carries a bad value. |
| RunSimulation.ApplyCommand | simulation/run_simulation.py:252-278 | An identifier outside the whitelist, or `-help`, leaves the settings unchanged; every other whitelisted command without a value raises (the IndexError of `split_cmd[1]`); and the only errors are a missing value, an unknown optimisation target, a non-integer count and an unknown race type. |
| RunSimulation.CommandText | simulation/run_simulation.py:250 | The argument `id=v` is the command `id` applied with value `v`. |
| RunSimulation.BooleanFlags | simulation/run_simulation.py:252-270 | `-golang`, `-verbose` and `-route_visualization` become true exactly when the value is the text `True`. Only that setting changes. |
| RunSimulation.OptimizeTargets | simulation/run_simulation.py:255-261 | `distance` and `distance_travelled` select distance travelled. `time_taken` and `time` select time taken. Anything else raises. |
| RunSimulation.RaceTypes | simulation/run_simulation.py:272-275 | Only `ASC` and `FSGP` are accepted. Anything else raises with the value. |
| RunSimulation.GranularityKeepsText | simulation/run_simulation.py:277-278 | `-granularity` stores the raw text of its value, and a third '=' segment is ignored. |
| RunSimulation.IterationValues | simulation/run_simulation.py:263-264 | For every value without '=', `-iter=v` stores `int(v)` when `int()` accepts `v`, and otherwise raises the ValueError, carrying `v` (the 4300-digit limit is not modelled). |
| RunSimulation.IterationCount | simulation/run_simulation.py:263-264 | `-iter` reads back any integer written in decimal (in CPython, only those with at most 4300 digits). |
| RunSimulation.CommandWithoutValueFails | simulation/run_simulation.py:252-278 | A whitelisted command other than `-help`, written without '=', raises for want of a value. |
| RunSimulation.ApplyCommandKeepsOthers | simulation/run_simulation.py:252-278 | A command leaves every setting but its own unchanged. |
| RunSimulation.ApplyCommandSetsFromValue | simulation/run_simulation.py:252-278 | Whether a command succeeds, and the setting it writes, depend on its identifier and value alone. |
| RunSimulation.ApplyArgumentFrame | simulation/run_simulation.py:246-278 | The same two facts hold for one argument of the loop. |
| RunSimulation.UntouchedSettingKept | simulation/run_simulation.py:246-278 | A setting that no command mentions keeps its initial value. |
| RunSimulation.LastOccurrenceWins | simulation/run_simulation.py:246-278 | For a repeated command, the last occurrence decides the setting. |
| RunSimulation.UsageExample | simulation/run_simulation.py:195 | A command line shaped like the help text's example (`-golang=… -optimize=… -iter=…`), for any target `-optimize` accepts, parses to the defaults with exactly those three settings replaced: the flag, the target `-optimize` selects, and the count. |

## Left out

- The DayBreak pack constants and the calibrated `DayBreakEquations` are not
  part of this model. They are uninterpreted parameters. No round trip or
  monotonicity is claimed for them.
- `BaseBattery` and `BaseLVS` (the superclass constructors) are not part of
  this model. The fields they set are the ones the subclasses set.
  `simulation/common/storage.py` is folded into the battery's
  `storedEnergy` field.
- BasicBatteryModel.ZeroTraceKeepsInitialState: the SOC and voltage parts
  hold only under the stated round-trip hypothesis on the equations, because
  the equations are not known.
- Numbers are reals, not IEEE doubles.
  - Rounding is not modelled.
  - The floating-point behaviour of cos, pow, arcsin and `1/x` in the air mass
    is not modelled. Those are uninterpreted functions.
  - Infinities and NaNs are not modelled. Where the azimuth divides by
    cos(elevation) = 0, the model returns `None`.
  - numpy's dtype rules (`np.full_like` on an integer array) are not modelled.
- numpy broadcasting is modelled as element-by-element maps over
  equal-length sequences. SolarCalculations.ApplyCloudCover,
  SolarCalculations.CalculateGhi, SolarCalculations.AngledIrradiance and
  SolarCalculations.CalculateArrayGhi require equal lengths. That is an
  assumption: the caller of `calculate_array_GHI` and the environment object
  that supplies the cloud cover are not part of this model, so nothing here
  shows that the lengths agree.
- SolarCalculations.EffectiveZenith requires at least one mount angle.
  `np.min` over an empty axis raises, and `_calculate_angled_irradiance` defaults to four angles.
- `helpers.local_time_to_apparent_solar_time`,
  `calculate_declination_angle`, `compute_elevation_angle_math` and the
  compiled `core.calculate_array_ghi_times` are uninterpreted.
  `_python_calculate_array_GHI_times` (`utcfromtimestamp` and the day-of-year
  map) is not modelled. Only its clock-to-hours step, `_date_convert`, is.
- The environment object and `race.driving_boolean` are passed in as the
  cloud-cover and driving sequences.
- PyStrings.ParseInt: Python's `int()` also accepts surrounding whitespace,
  `_` digit separators and non-ASCII digits. The model accepts only an
  optional sign and ASCII digits, so it reports an error on those.
  CPython's `int()` and `str()` also raise ValueError beyond 4300 digits
  (`sys.set_int_max_str_digits`); the model has no limit, so
  PyStrings.ParseIntOfIntToString, PyStrings.OtherSpellings,
  RunSimulation.IterationValues and RunSimulation.IterationCount state
  their results for longer digit strings too, where CPython raises.
- Asking for help: `display_commands()` and `exit()` are I/O. The model
  returns the outcome `ShowHelp` instead.
- `run_simulation`, `run_unoptimized_and_export`, `parse_data`,
  `run_simulation_from_data`, `display_output` and `main` are not modelled.
  They do file I/O, plotting and printing, and they call optimisers and a
  simulation builder that are not part of this model.
- `simulation/cmd/run_simulation.py` is orchestration (argparse, config
  loading, `np.load`, `subprocess`) and is not modelled.
  `simulation/optimization/hyperparam_op.py` and `hyperparam_op_bf.py` are
  experiment scripts over random search and file output, and are not
  modelled either.
- The exception messages are replaced by `ParseError` values that carry the
  offending identifier or value.
