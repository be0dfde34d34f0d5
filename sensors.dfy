/**
 * gettemperature and getcputemperature: a temperature from one sensor file,
 * or the mean of two, in millidegrees Celsius.
 */
module Sensors {
  import opened Wrappers
  import opened Libc
  import opened Files

  /**
   * A temperature the sampler formats: millidegrees / divisor degrees Celsius.
   * NoReading is the empty fragment.
   */
  datatype Reading = NoReading | Reading(millidegrees: int, divisor: nat)

  /** gettemperature(base, sensor): one sensor, shown as its value / 1000. */
  function Temperature(fs: FileSystem, base: string, sensor: string): Reading {
    match FirstLine(fs, Path(base, sensor))
    case None => NoReading
    case Some(co) => Reading(Atof(co), 1000)
  }

  /**
   * getcputemperature(base, sensor1, sensor2): both sensors must give a line,
   * and the reading is their sum / 2000, the mean in degrees.
   */
  function CpuTemperature(fs: FileSystem, base: string, sensor1: string, sensor2: string): Reading {
    match FirstLine(fs, Path(base, sensor1))
    case None => NoReading
    case Some(co1) =>
      match FirstLine(fs, Path(base, sensor2))
      case None => NoReading
      case Some(co2) => Reading(Atof(co1) + Atof(co2), 2000)
  }

  /** The single-sensor fragment is empty exactly when its file is missing or empty. */
  lemma TemperatureAbsentIff(fs: FileSystem, base: string, sensor: string)
    ensures var p := Path(base, sensor);
      Temperature(fs, base, sensor).NoReading? <==> p !in fs || fs[p] == []
  {
    FirstLineAbsent(fs, Path(base, sensor));
  }

  /**
   * The dual-sensor fragment is empty exactly when either file is missing or
   * empty: it never shows a value from one sensor alone.
   */
  lemma CpuTemperatureNeedsBoth(fs: FileSystem, base: string, sensor1: string, sensor2: string)
    ensures var p1, p2 := Path(base, sensor1), Path(base, sensor2);
      CpuTemperature(fs, base, sensor1, sensor2).NoReading? <==>
        p1 !in fs || fs[p1] == [] || p2 !in fs || fs[p2] == []
  {
    FirstLineAbsent(fs, Path(base, sensor1));
    FirstLineAbsent(fs, Path(base, sensor2));
  }

  /** Sensor files holding decimal millidegrees give that value, and for the CPU the sum of both. */
  lemma ReadingsOfSensors(fs: FileSystem, base: string, sensor1: string, sensor2: string, t1: int, t2: int)
    requires Path(base, sensor1) in fs && fs[Path(base, sensor1)] == Decimal(t1) + "\n"
    requires Path(base, sensor2) in fs && fs[Path(base, sensor2)] == Decimal(t2) + "\n"
    requires |Decimal(t1)| < LineRoom && |Decimal(t2)| < LineRoom
    ensures Temperature(fs, base, sensor1) == Reading(t1, 1000)
    ensures CpuTemperature(fs, base, sensor1, sensor2) == Reading(t1 + t2, 2000)
  {
    DecimalFile(fs, Path(base, sensor1), t1);
    DecimalFile(fs, Path(base, sensor2), t2);
  }

  /** What atof makes of a line that holds nothing numeric: 0 degrees, not an empty fragment. */
  lemma NonNumericReadsZero(fs: FileSystem, base: string, sensor: string)
    requires FirstLine(fs, Path(base, sensor)).Some?
    requires ScanInt(FirstLine(fs, Path(base, sensor)).value).None?
    ensures Temperature(fs, base, sensor) == Reading(0, 1000)
  {
  }
}
