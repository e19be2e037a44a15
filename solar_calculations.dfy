/** Clear-sky irradiance of OpenweatherSolarCalculations: solar position
    (hour angle, elevation, zenith, azimuth), direct, diffuse and global
    irradiance, the cloud-cover attenuation, the tilted-array irradiance of a
    stationary car, and the per-tick choice between the two. Angles are in
    degrees, irradiance in W/m^2. The numeric primitives (trigonometry, powers,
    floating-point reciprocal) and the solar-geometry helpers are left
    uninterpreted; the structural rules around them are exact. */
module SolarCalculations {
  import opened Results

  /** The primitives the Python code takes from numpy, from its helpers module and
      from its compiled core module. */
  datatype SolarMath = SolarMath(
    cosDeg: real -> real,                               // np.cos(np.radians(x))
    sinDeg: real -> real,                               // np.sin(np.radians(x))
    arcsinDeg: real -> real,                            // np.degrees(np.arcsin(x))
    power: (real, real) -> real,                        // np.power
    reciprocal: real -> real,                           // 1 / x in floating point
    apparentSolarTime: (real, real, real, real) -> real, // (utc offset h, day, local time, longitude)
    declination: real -> real,                          // day of year -> declination
    elevationMath: (real, real, real) -> real,          // (declination, hour angle, latitude)
    ghiTimes: real -> (real, real))                     // unix time -> (day of year, local hour)

  /** The only facts about the primitives that the code relies on. */
  predicate PowerFacts(m: SolarMath)
  {
    m.power(0.0, 3.4) == 0.0 && m.power(1.0, 3.4) == 1.0
  }

  /** An OpenweatherSolarCalculations object: the solar constant S_0 and the primitives. */
  datatype SolarCalculator = SolarCalculator(solarConstant: real, math: SolarMath)

  /** One point of the route: where and when the car is, and its altitude (m).
      timeZoneUtc is the UTC offset in seconds. */
  datatype Sample = Sample(latitude: real, longitude: real, timeZoneUtc: real,
                           dayOfYear: real, localTime: real, elevation: real)

  datatype SolarError = CloudCoverOutOfRange

  /** The mount angles of the array available while charging stationary. */
  const MountAngles: seq<real> := [0.0, 15.0, 30.0, 45.0]

  function Abs(x: real): real { if x < 0.0 then -x else x }

  function Min(a: real, b: real): real { if a <= b then a else b }

  // ----- Solar position -----

  /** Hour angle: 15 degrees per hour away from apparent solar noon. The UTC
      offset arrives in seconds and is converted to hours first. Negative in
      the morning, zero at solar noon, positive in the afternoon. */
  function HourAngle(m: SolarMath, timeZoneUtc: real, dayOfYear: real, localTime: real, longitude: real): (r: real)
    ensures var lst := m.apparentSolarTime(timeZoneUtc / 3600.0, dayOfYear, localTime, longitude);
            (r == 0.0 <==> lst == 12.0) && (r < 0.0 <==> lst < 12.0) && (r > 0.0 <==> lst > 12.0)
    ensures var lst := m.apparentSolarTime(timeZoneUtc / 3600.0, dayOfYear, localTime, longitude);
            r / 15.0 + 12.0 == lst
  {
    var lst := m.apparentSolarTime(timeZoneUtc / 3600.0, dayOfYear, localTime, longitude);
    15.0 * (lst - 12.0)
  }

  /** _calculate_elevation_angle: the elevation from the declination of the
      day, the hour angle and the latitude. At apparent solar noon the hour
      angle vanishes and the elevation depends on the day and latitude alone. */
  function ElevationAngle(m: SolarMath, s: Sample): (r: real)
    ensures m.apparentSolarTime(s.timeZoneUtc / 3600.0, s.dayOfYear, s.localTime, s.longitude) == 12.0 ==>
              r == m.elevationMath(m.declination(s.dayOfYear), 0.0, s.latitude)
  {
    m.elevationMath(m.declination(s.dayOfYear),
                    HourAngle(m, s.timeZoneUtc, s.dayOfYear, s.localTime, s.longitude),
                    s.latitude)
  }

  /** Zenith is the complement of elevation: beyond 90 degrees exactly when the
      sun is below the horizon. */
  function ZenithAngle(m: SolarMath, s: Sample): (r: real)
    ensures r + ElevationAngle(m, s) == 90.0
    ensures r > 90.0 <==> ElevationAngle(m, s) < 0.0
  {
    90.0 - ElevationAngle(m, s)
  }

  /** Snaps a value into the domain [-1, 1] of arcsin. */
  function ClampToUnit(x: real): (r: real)
    ensures -1.0 <= r <= 1.0
    ensures -1.0 <= x <= 1.0 ==> r == x
    ensures x < -1.0 ==> r == -1.0
    ensures x > 1.0 ==> r == 1.0
  {
    if x < -1.0 then -1.0 else if x > 1.0 then 1.0 else x
  }

  /** The arcsin argument of the azimuth computation, after the clamp. None
      when cos(elevation) is 0, where the floating-point quotient is infinite
      or undefined. */
  function AzimuthArgument(m: SolarMath, s: Sample): (r: Option<real>)
    ensures r.Some? <==> m.cosDeg(ElevationAngle(m, s)) != 0.0
    ensures r.Some? ==> -1.0 <= r.value <= 1.0
  {
    var declination := m.declination(s.dayOfYear);
    var hourAngle := HourAngle(m, s.timeZoneUtc, s.dayOfYear, s.localTime, s.longitude);
    var term1 := m.sinDeg(declination) * m.sinDeg(s.latitude);
    var term2 := m.cosDeg(declination) * m.sinDeg(s.latitude) * m.cosDeg(hourAngle);
    var denominator := m.cosDeg(ElevationAngle(m, s));
    if denominator == 0.0 then None
    else Some(ClampToUnit((term1 - term2) / denominator))
  }

  /** Azimuth angle: arcsin of the clamped argument, in degrees. */
  function AzimuthAngle(m: SolarMath, s: Sample): (r: Option<real>)
    ensures r.Some? <==> AzimuthArgument(m, s).Some?
    ensures r.Some? ==> exists x :: -1.0 <= x <= 1.0 && r.value == m.arcsinDeg(x)
  {
    match AzimuthArgument(m, s)
    case None => None
    case Some(x) => Some(m.arcsinDeg(x))
  }

  // ----- Irradiance -----

  /** Kasten-Young air mass, 1 / (cos(z) + 0.50572 (96.07995 - z)^-1.6364). */
  function AirMass(m: SolarMath, zenith: real): real
  {
    m.reciprocal(m.cosDeg(zenith) + 0.50572 * m.power(96.07995 - zenith, -1.6364))
  }

  /** The clear-sky formula for DNI at a zenith angle and an altitude, before masking. */
  function ClearSkyDni(c: SolarCalculator, zenith: real, elevation: real): real
  {
    var a := 0.14;
    var m := c.math;
    c.solarConstant * ((1.0 - a * elevation * 0.001) * m.power(0.7, m.power(AirMass(m, zenith), 0.678))
                       + a * elevation * 0.001)
  }

  /** Direct normal irradiance: exactly 0 once the sun is below the horizon,
      the clear-sky value otherwise. */
  function Dni(c: SolarCalculator, s: Sample): (r: real)
    ensures ZenithAngle(c.math, s) > 90.0 ==> r == 0.0
    ensures ZenithAngle(c.math, s) <= 90.0 ==> r == ClearSkyDni(c, ZenithAngle(c.math, s), s.elevation)
  {
    var zenith := ZenithAngle(c.math, s);
    if zenith > 90.0 then 0.0 else ClearSkyDni(c, zenith, s.elevation)
  }

  /** Diffuse horizontal irradiance: a tenth of DNI. */
  function Dhi(c: SolarCalculator, s: Sample): (r: real)
    ensures r * 10.0 == Dni(c, s)
  {
    0.1 * Dni(c, s)
  }

  /** DNI projected through an angle, plus the diffuse part. */
  function IrradianceAt(c: SolarCalculator, s: Sample, zenith: real): real
  {
    Dni(c, s) * c.math.cosDeg(zenith) + Dhi(c, s)
  }

  /** Global horizontal irradiance before cloud cover: DNI cos(z) + DHI. */
  function ClearSkyGhi(c: SolarCalculator, s: Sample): real
  {
    IrradianceAt(c, s, ZenithAngle(c.math, s))
  }

  /** The global irradiance at an angle is DNI scaled by the cosine of that
      angle plus a tenth. The driving array sees it at the true zenith, the
      stationary one at the effective zenith. */
  lemma IrradianceFromDni(c: SolarCalculator, s: Sample, zenith: real)
    ensures IrradianceAt(c, s, zenith) == Dni(c, s) * (c.math.cosDeg(zenith) + 0.1)
  {
    var d := Dni(c, s);
    assert Dhi(c, s) == 0.1 * d;
  }

  /** The cloud-cover model: GHI (1 - 0.75 (cover/100)^3.4). */
  function CloudAttenuated(m: SolarMath, ghi: real, cloudCover: real): real
  {
    ghi * (1.0 - 0.75 * m.power(cloudCover / 100.0, 3.4))
  }

  predicate ValidCloudCover(cloudCover: seq<real>)
  {
    forall i :: 0 <= i < |cloudCover| ==> 0.0 <= cloudCover[i] <= 100.0
  }

  /** _apply_cloud_cover: refuses the whole array when any cover lies outside
      [0, 100]; otherwise attenuates elementwise. (Its second check,
      on cover/100 in [0, 1], always holds after the first.) */
  function ApplyCloudCover(m: SolarMath, ghi: seq<real>, cloudCover: seq<real>): (r: Result<seq<real>, SolarError>)
    requires |ghi| == |cloudCover|
    ensures r.Failure? <==> exists i :: 0 <= i < |cloudCover| && !(0.0 <= cloudCover[i] <= 100.0)
    ensures r.Failure? ==> r.error == CloudCoverOutOfRange
    ensures r.Success? ==>
      |r.value| == |ghi| &&
      forall i :: 0 <= i < |ghi| ==> r.value[i] == CloudAttenuated(m, ghi[i], cloudCover[i])
  {
    if ValidCloudCover(cloudCover) then
      Success(seq(|ghi|, i requires 0 <= i < |ghi| => CloudAttenuated(m, ghi[i], cloudCover[i])))
    else
      Failure(CloudCoverOutOfRange)
  }

  /** A clear sky leaves GHI as it is; a fully overcast one keeps a quarter of it. */
  lemma CloudCoverExtremes(m: SolarMath, ghi: real)
    requires PowerFacts(m)
    ensures CloudAttenuated(m, ghi, 0.0) == ghi
    ensures CloudAttenuated(m, ghi, 100.0) == 0.25 * ghi
  {
    assert 0.0 / 100.0 == 0.0;
    assert 100.0 / 100.0 == 1.0;
  }

  /** _calculate_GHI over arrays: the clear-sky GHI of every sample, then the cloud model. */
  function CalculateGhi(c: SolarCalculator, samples: seq<Sample>, cloudCover: seq<real>): (r: Result<seq<real>, SolarError>)
    requires |samples| == |cloudCover|
    ensures r.Success? <==> ValidCloudCover(cloudCover)
    ensures r.Success? ==>
      |r.value| == |samples| &&
      forall i :: 0 <= i < |samples| ==> r.value[i] == CloudAttenuated(c.math, ClearSkyGhi(c, samples[i]), cloudCover[i])
  {
    ApplyCloudCover(c.math, seq(|samples|, i requires 0 <= i < |samples| => ClearSkyGhi(c, samples[i])), cloudCover)
  }

  /** Effective zenith: the smallest distance from the zenith to a mount angle.
      It is attained by some mount angle and no mount angle is closer. */
  function EffectiveZenith(zenith: real, angles: seq<real>): (r: real)
    requires |angles| > 0
    ensures r >= 0.0
    ensures forall i :: 0 <= i < |angles| ==> r <= Abs(zenith - angles[i])
    ensures exists i :: 0 <= i < |angles| && r == Abs(zenith - angles[i])
    decreases |angles|
  {
    if |angles| == 1 then Abs(zenith - angles[0])
    else
      var rest := EffectiveZenith(zenith, angles[1..]);
      assert forall i :: 1 <= i < |angles| ==> angles[i] == angles[1..][i - 1];
      Min(Abs(zenith - angles[0]), rest)
  }

  /** With the sun in the sky, the best mount is never worse aligned than lying
      flat, and near the zenith lying flat is the best mount. */
  lemma EffectiveZenithOfMounts(zenith: real)
    requires 0.0 <= zenith
    ensures EffectiveZenith(zenith, MountAngles) <= zenith
    ensures zenith <= 7.5 ==> EffectiveZenith(zenith, MountAngles) == zenith
  {
    assert MountAngles[0] == 0.0;
  }

  /** The tilted-array irradiance of one sample: the GHI formula at the effective zenith. */
  function AngledClearSkyIrradiance(c: SolarCalculator, s: Sample, angles: seq<real>): real
    requires |angles| > 0
  {
    IrradianceAt(c, s, EffectiveZenith(ZenithAngle(c.math, s), angles))
  }

  /** _calculate_angled_irradiance over arrays, followed by the cloud model. */
  function AngledIrradiance(c: SolarCalculator, samples: seq<Sample>, cloudCover: seq<real>, angles: seq<real>)
    : (r: Result<seq<real>, SolarError>)
    requires |samples| == |cloudCover| && |angles| > 0
    ensures r.Success? <==> ValidCloudCover(cloudCover)
    ensures r.Success? ==>
      |r.value| == |samples| &&
      forall i :: 0 <= i < |samples| ==>
        r.value[i] == CloudAttenuated(c.math, AngledClearSkyIrradiance(c, samples[i], angles), cloudCover[i])
  {
    ApplyCloudCover(c.math, seq(|samples|, i requires 0 <= i < |samples| => AngledClearSkyIrradiance(c, samples[i], angles)),
                    cloudCover)
  }

  /** Below the horizon every irradiance is exactly zero, whatever the mount or the clouds. */
  lemma BelowHorizonIsDark(c: SolarCalculator, s: Sample, angles: seq<real>, cloudCover: real)
    requires ZenithAngle(c.math, s) > 90.0
    requires |angles| > 0
    ensures Dni(c, s) == 0.0 && Dhi(c, s) == 0.0
    ensures CloudAttenuated(c.math, ClearSkyGhi(c, s), cloudCover) == 0.0
    ensures CloudAttenuated(c.math, AngledClearSkyIrradiance(c, s, angles), cloudCover) == 0.0
  {
  }

  /** Near the zenith the stationary array gets the same irradiance as the driving one. */
  lemma FlatMountNearZenith(c: SolarCalculator, s: Sample)
    requires 0.0 <= ZenithAngle(c.math, s) <= 7.5
    ensures AngledClearSkyIrradiance(c, s, MountAngles) == ClearSkyGhi(c, s)
  {
    EffectiveZenithOfMounts(ZenithAngle(c.math, s));
  }

  // ----- Time conversion -----

  /** The clock fields of a datetime that _date_convert reads. */
  datatype ClockTime = ClockTime(hour: int, minute: int, second: int)

  predicate ValidClockTime(t: ClockTime)
  {
    0 <= t.hour < 24 && 0 <= t.minute < 60 && 0 <= t.second < 60
  }

  /** Local time in fractional hours since midnight. For a valid clock time it
      lies within the clock's hour, and the seconds since midnight come back. */
  function DateConvert(t: ClockTime): (r: real)
    ensures r * 3600.0 == (t.hour * 3600 + t.minute * 60 + t.second) as real
    ensures ValidClockTime(t) ==> t.hour as real <= r < (t.hour + 1) as real && r < 24.0
  {
    t.hour as real + (t.minute * 60 + t.second) as real / 3600.0
  }

  // ----- Whole-route irradiance -----

  /** The route samples calculate_array_GHI builds from its arrays; the day of
      year and local hour come from the compiled helper, elementwise. */
  function RouteSamples(m: SolarMath, coords: seq<(real, real)>, timeZones: seq<real>,
                        localTimes: seq<real>, elevations: seq<real>): (r: seq<Sample>)
    requires |coords| == |timeZones| == |localTimes| == |elevations|
    ensures |r| == |coords|
    ensures forall i :: 0 <= i < |r| ==>
      r[i].latitude == coords[i].0 && r[i].longitude == coords[i].1 &&
      r[i].timeZoneUtc == timeZones[i] && r[i].elevation == elevations[i] &&
      (r[i].dayOfYear, r[i].localTime) == m.ghiTimes(localTimes[i])
  {
    seq(|coords|, i requires 0 <= i < |coords| =>
      var times := m.ghiTimes(localTimes[i]);
      Sample(coords[i].0, coords[i].1, timeZones[i], times.0, times.1, elevations[i]))
  }

  /** calculate_array_GHI: the stationary irradiance where the car is not
      driving, the driving GHI where it is. */
  function CalculateArrayGhi(c: SolarCalculator, coords: seq<(real, real)>, timeZones: seq<real>,
                             localTimes: seq<real>, elevations: seq<real>, cloudCover: seq<real>,
                             drivingBoolean: seq<bool>): (r: Result<seq<real>, SolarError>)
    requires |coords| == |timeZones| == |localTimes| == |elevations| == |cloudCover| == |drivingBoolean|
    ensures r.Success? <==> ValidCloudCover(cloudCover)
    ensures r.Success? ==> |r.value| == |coords|
  {
    var samples := RouteSamples(c.math, coords, timeZones, localTimes, elevations);
    var ghi := CalculateGhi(c, samples, cloudCover);
    var stationary := AngledIrradiance(c, samples, cloudCover, MountAngles);
    // Both arrays pass the same cloud-cover check, the driving one first.
    if ghi.Failure? || stationary.Failure? then Failure(CloudCoverOutOfRange)
    else Success(seq(|coords|, i requires 0 <= i < |coords| =>
                   if !drivingBoolean[i] then stationary.value[i] else ghi.value[i]))
  }

  /** Per tick, the effective irradiance is the cloud-attenuated stationary
      value while stopped and the cloud-attenuated driving GHI while driving. */
  lemma ArrayGhiSelectsPerTick(c: SolarCalculator, coords: seq<(real, real)>, timeZones: seq<real>,
                               localTimes: seq<real>, elevations: seq<real>, cloudCover: seq<real>,
                               drivingBoolean: seq<bool>, i: int)
    requires |coords| == |timeZones| == |localTimes| == |elevations| == |cloudCover| == |drivingBoolean|
    requires ValidCloudCover(cloudCover)
    requires 0 <= i < |coords|
    ensures var r := CalculateArrayGhi(c, coords, timeZones, localTimes, elevations, cloudCover, drivingBoolean);
            var s := RouteSamples(c.math, coords, timeZones, localTimes, elevations)[i];
            r.Success? &&
            (!drivingBoolean[i] ==> r.value[i] == CloudAttenuated(c.math, AngledClearSkyIrradiance(c, s, MountAngles), cloudCover[i])) &&
            (drivingBoolean[i] ==> r.value[i] == CloudAttenuated(c.math, ClearSkyGhi(c, s), cloudCover[i]))
  {
  }
}
