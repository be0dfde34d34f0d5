/**
 * The status line of one cycle of the poll loop: the six fragments joined
 * into one fixed template, from the samplers' reports on a given filesystem.
 */
module Status {
  import opened Wrappers
  import opened Libc
  import opened Files
  import opened MemInfo
  import opened Battery
  import opened Sensors

  const CpuBase := "/sys/class/hwmon/hwmon2"
  const CpuSensor1 := "temp2_input"
  const CpuSensor2 := "temp3_input"
  const GpuBase := "/sys/class/hwmon/hwmon3"
  const GpuSensor := "temp2_input"
  const MemBase := "/proc"
  const MemFile := "meminfo"
  const BatteryBase := "/sys/class/power_supply/BAT0"

  /** The text main's format string adds around the six fragments. */
  const TemplateLength: nat := 27

  /** The format " cpu:%s gpu:%s load:%s mem:%s bat:%s %s" applied to the six fragments. */
  function Compose(tcpu: string, tgpu: string, avgs: string, mem: string, bat: string, tmwrs: string): (line: string)
    ensures |line| == |tcpu| + |tgpu| + |avgs| + |mem| + |bat| + |tmwrs| + TemplateLength
  {
    " cpu:" + tcpu + " gpu:" + tgpu + " load:" + avgs + " mem:" + mem + " bat:" + bat + " " + tmwrs
  }

  /** Each fragment sits, unchanged, between its label and the next one. */
  lemma ComposeSlots(tcpu: string, tgpu: string, avgs: string, mem: string, bat: string, tmwrs: string)
    ensures var line := Compose(tcpu, tgpu, avgs, mem, bat, tmwrs);
            var a := 5 + |tcpu|;
            var b := a + 5 + |tgpu|;
            var c := b + 6 + |avgs|;
            var d := c + 5 + |mem|;
            var e := d + 5 + |bat|;
      && line[..5] == " cpu:" && line[5..a] == tcpu
      && line[a..a + 5] == " gpu:" && line[a + 5..b] == tgpu
      && line[b..b + 6] == " load:" && line[b + 6..c] == avgs
      && line[c..c + 5] == " mem:" && line[c + 5..d] == mem
      && line[d..d + 5] == " bat:" && line[d + 5..e] == bat
      && line[e..e + 1] == " " && line[e + 1..] == tmwrs
  {
  }

  /** The line ends with the battery slot, a space and the clock. */
  lemma ComposeEnds(tcpu: string, tgpu: string, avgs: string, mem: string, bat: string, tmwrs: string)
    ensures var line := Compose(tcpu, tgpu, avgs, mem, bat, tmwrs);
      line[|line| - |tmwrs| - |bat| - 6..] == " bat:" + bat + " " + tmwrs
  {
  }

  /** With every sampler empty the template skeleton stays intact. */
  lemma ComposeAllEmpty()
    ensures Compose("", "", "", "", "", "") == " cpu: gpu: load: mem: bat: "
  {
    var line := Compose("", "", "", "", "", "");
    assert line == " cpu:" + "" + " gpu:" + "" + " load:" + "" + " mem:" + "" + " bat:" + "" + " " + "";
  }

  /** Given the fragment lengths, the line determines each fragment: the template never blurs two slots. */
  lemma ComposeInjective(a1: string, a2: string, a3: string, a4: string, a5: string, a6: string,
                         b1: string, b2: string, b3: string, b4: string, b5: string, b6: string)
    requires |a1| == |b1| && |a2| == |b2| && |a3| == |b3| && |a4| == |b4| && |a5| == |b5|
    requires Compose(a1, a2, a3, a4, a5, a6) == Compose(b1, b2, b3, b4, b5, b6)
    ensures a1 == b1 && a2 == b2 && a3 == b3 && a4 == b4 && a5 == b5 && a6 == b6
  {
    ComposeSlots(a1, a2, a3, a4, a5, a6);
    ComposeSlots(b1, b2, b3, b4, b5, b6);
  }

  /**
   * The float renderings the model does not carry out: "%02.0f" of n / d for a
   * temperature, "%.0f" of (float) kb / 1024 for memory, and "%.0f" of
   * ((float) remaining / (float) design) * 100 for the battery. Each is a
   * function of the integer quantities alone.
   */
  datatype Formats = Formats(
    degrees: (int, nat) -> string,
    mebibytes: int -> string,
    percent: (int, int) -> string)

  const DegreeSign := "\U{B0}C"

  /** The temperature fragment "%02.0f°C"; it is empty exactly when there is no reading. */
  function TemperatureText(r: Reading, fmt: Formats): (s: string)
    ensures s == [] <==> r.NoReading?
  {
    match r
    case NoReading => ""
    case Reading(m, d) => fmt.degrees(m, d) + DegreeSign
  }

  /** The battery fragment: the symbol follows the '%' with no separator. */
  function BatteryText(b: BatteryReport, fmt: Formats): (t: Option<string>)
    ensures t.None? <==> b.StatusUnreadable?
    ensures b.Charge? ==> t.Some? && |t.value| >= 2 && t.value[|t.value| - 2..] == "%" + [b.direction]
  {
    match b
    case Empty => Some("")
    case NotPresent => Some("not present")
    case Invalid => Some("invalid")
    case Charge(remaining, design, direction) => Some(fmt.percent(remaining, design) + "%" + [direction])
    case StatusUnreadable => None
  }

  /** The undefined behaviour a cycle can run into. */
  datatype Defect =
    | NullStatus        // getbattery passes readfile's NULL to strncmp
    | NullMem           // getmem's NULL is passed to %s
    | UninitialisedMem  // getmem computes with a variable no fscanf assigned

  datatype Outcome = Published(line: string) | Undefined(defect: Defect)

  /**
   * The outcome of one cycle from the samplers' reports. main runs the
   * samplers in the order cpu, gpu, load, mem, bat, clock: getmem computes
   * with an unset variable before getbattery runs, getbattery's strncmp on
   * NULL comes next, and getmem's NULL is only used by the composition.
   */
  function Assemble(cpu: Reading, gpu: Reading, load: string, mem: MemReport, bat: BatteryReport,
                    clock: string, fmt: Formats): (o: Outcome)
    ensures o.Published? <==> mem.Used? && !bat.StatusUnreadable?
    ensures mem.Unset? ==> o == Undefined(UninitialisedMem)
    ensures mem.NoMemInfo? && bat.StatusUnreadable? ==> o == Undefined(NullStatus)
  {
    if mem.Unset? then Undefined(UninitialisedMem)
    else
      match BatteryText(bat, fmt)
      case None => Undefined(NullStatus)
      case Some(battery) =>
        match mem
        case NoMemInfo => Undefined(NullMem)
        case Used(kb) =>
          Published(Compose(TemperatureText(cpu, fmt), TemperatureText(gpu, fmt), load,
                            fmt.mebibytes(kb) + "MiB", battery, clock))
  }

  /**
   * One cycle of main on the files in fs; load and clock are the fragments of
   * loadavg and mktimes.
   */
  function Cycle(fs: FileSystem, load: string, clock: string, fmt: Formats): Outcome {
    Assemble(CpuTemperature(fs, CpuBase, CpuSensor1, CpuSensor2), Temperature(fs, GpuBase, GpuSensor),
             load, MemUsage(fs, Path(MemBase, MemFile)), BatteryState(fs, BatteryBase), clock, fmt)
  }

  /**
   * A cycle is defined exactly when the battery sampler does not reach
   * strncmp with NULL and getmem computed a value.
   */
  lemma CycleDefinedIff(fs: FileSystem, load: string, clock: string, fmt: Formats)
    ensures Cycle(fs, load, clock, fmt).Published? <==>
      !BatteryState(fs, BatteryBase).StatusUnreadable? && MemUsage(fs, Path(MemBase, MemFile)).Used?
    ensures Cycle(fs, load, clock, fmt) == Undefined(NullMem) <==>
      !BatteryState(fs, BatteryBase).StatusUnreadable? && Path(MemBase, MemFile) !in fs
  {
    MemUsageAbsent(fs, Path(MemBase, MemFile));
  }

  /**
   * Whatever the fragments, a published line starts with the cpu label and
   * ends with the battery fragment, a space and the clock.
   */
  lemma PublishedEnds(cpu: Reading, gpu: Reading, load: string, mem: MemReport, bat: BatteryReport,
                      clock: string, fmt: Formats)
    requires Assemble(cpu, gpu, load, mem, bat, clock, fmt).Published?
    ensures var line := Assemble(cpu, gpu, load, mem, bat, clock, fmt).line;
            var battery := BatteryText(bat, fmt).value;
      && " cpu:" <= line
      && |line| >= TemplateLength + |battery| + |clock|
      && line[|line| - |clock| - |battery| - 6..] == " bat:" + battery + " " + clock
  {
    var tcpu := TemperatureText(cpu, fmt);
    var tgpu := TemperatureText(gpu, fmt);
    var memory := fmt.mebibytes(mem.kb) + "MiB";
    var battery := BatteryText(bat, fmt).value;
    ComposeSlots(tcpu, tgpu, load, memory, battery, clock);
    ComposeEnds(tcpu, tgpu, load, memory, battery, clock);
  }

  /**
   * On a machine without the battery's present file the battery slot is
   * empty: the line ends in " bat: " and the clock.
   */
  lemma NoBatteryLine(fs: FileSystem, load: string, clock: string, fmt: Formats)
    requires Path(BatteryBase, Present) !in fs
    requires MemUsage(fs, Path(MemBase, MemFile)).Used?
    ensures Cycle(fs, load, clock, fmt).Published?
    ensures var line := Cycle(fs, load, clock, fmt).line;
      line[|line| - |clock| - 6..] == " bat: " + clock
  {
    FirstLineAbsent(fs, Path(BatteryBase, Present));
    assert BatteryState(fs, BatteryBase) == Empty;
    assert BatteryText(BatteryState(fs, BatteryBase), fmt) == Some("");
    PublishedEnds(CpuTemperature(fs, CpuBase, CpuSensor1, CpuSensor2), Temperature(fs, GpuBase, GpuSensor),
                  load, MemUsage(fs, Path(MemBase, MemFile)), BatteryState(fs, BatteryBase), clock, fmt);
    assert " bat:" + "" + " " + clock == " bat: " + clock;
  }

  /**
   * Both temperatures read, memory computed and a charge reported: the cycle
   * publishes the template filled with their renderings. With
   * Sensors.ReadingsOfSensors, MemInfo.MemUsageOfLayout and
   * Battery.ChargeOfCounters this gives the line for files that hold what
   * the kernel writes.
   */
  lemma CycleOfReports(fs: FileSystem, load: string, clock: string, fmt: Formats,
                       cpu: int, gpu: int, kb: int, now: int, design: int, direction: char)
    requires CpuTemperature(fs, CpuBase, CpuSensor1, CpuSensor2) == Reading(cpu, 2000)
    requires Temperature(fs, GpuBase, GpuSensor) == Reading(gpu, 1000)
    requires MemUsage(fs, Path(MemBase, MemFile)) == Used(kb)
    requires BatteryState(fs, BatteryBase) == Charge(now, design, direction)
    ensures Cycle(fs, load, clock, fmt) == Published(Compose(
      fmt.degrees(cpu, 2000) + DegreeSign,
      fmt.degrees(gpu, 1000) + DegreeSign,
      load,
      fmt.mebibytes(kb) + "MiB",
      fmt.percent(now, design) + "%" + [direction],
      clock))
  {
  }

  /**
   * getmem runs before getbattery: a meminfo file too short to reach the
   * SReclaimable line is the cycle's defect even when the status file is
   * missing as well.
   */
  lemma UnsetBeforeNullStatus(fs: FileSystem, load: string, clock: string, fmt: Formats)
    requires Path(MemBase, MemFile) in fs && |Lines(fs[Path(MemBase, MemFile)])| <= SReclaimableLine
    requires BatteryState(fs, BatteryBase) == StatusUnreadable
    ensures Cycle(fs, load, clock, fmt) == Undefined(UninitialisedMem)
  {
    ShortFileUnset(fs, Path(MemBase, MemFile));
  }
}
