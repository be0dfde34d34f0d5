/**
 * getbattery: the battery fragment, decided from the files of one power
 * supply directory: the presence flag, a design and a current capacity each
 * with a fallback file, and the charging status.
 */
module Battery {
  import opened Wrappers
  import opened Libc
  import opened Files

  const Present := "present"
  const ChargeFullDesign := "charge_full_design"
  const EnergyFullDesign := "energy_full_design"
  const ChargeNow := "charge_now"
  const EnergyNow := "energy_now"
  const StatusFile := "status"

  /**
   * What getbattery produces. Empty, NotPresent and Invalid are the texts "",
   * "not present" and "invalid"; Charge is the percentage remaining / design
   * followed by the direction symbol; StatusUnreadable is the strncmp on the
   * NULL that readfile returns for a missing status file, which is undefined
   * behaviour.
   */
  datatype BatteryReport =
    | Empty
    | NotPresent
    | Invalid
    | Charge(remaining: int, design: int, direction: char)
    | StatusUnreadable

  /** The direction symbol for the first line of the status file. */
  function Direction(status: string): (c: char)
    requires '\0' !in status
    ensures c == '-' <==> "Discharging" <= status
    ensures c == '+' <==> "Charging" <= status
    ensures c == ' ' <==> !("Discharging" <= status) && !("Charging" <= status)
  {
    StrnEqualIsPrefix(status, "Discharging");
    StrnEqualIsPrefix(status, "Charging");
    if StrnEqual(status, "Discharging", 11) then '-'
    else if StrnEqual(status, "Charging", 8) then '+'
    else ' '
  }

  /** A capacity as sscanf(co, "%d", &cap) leaves it, cap starting at -1. */
  function Capacity(co: string): int {
    Sscanf(co, -1)
  }

  /** The first line of primary, or of fallback when primary gives none. */
  function FirstOf(fs: FileSystem, base: string, primary: string, fallback: string): Option<string> {
    match FirstLine(fs, Path(base, primary))
    case Some(co) => Some(co)
    case None => FirstLine(fs, Path(base, fallback))
  }

  /** The report getbattery(base) gives for the files in fs. */
  function BatteryState(fs: FileSystem, base: string): BatteryReport {
    match FirstLine(fs, Path(base, Present))
    case None => Empty
    case Some(present) =>
      if CharAt(present, 0) != '1' then NotPresent
      else
        match FirstOf(fs, base, ChargeFullDesign, EnergyFullDesign)
        case None => Empty
        case Some(design) =>
          match FirstOf(fs, base, ChargeNow, EnergyNow)
          case None => Empty
          case Some(now) =>
            match FirstLine(fs, Path(base, StatusFile))
            case None => StatusUnreadable
            case Some(status) =>
              var descap := Capacity(design);
              var remcap := Capacity(now);
              if remcap < 0 || descap < 0 then Invalid
              else Charge(remcap, descap, Direction(status))
  }

  /** readfile on primary and, when that gives NULL, on fallback. */
  method ReadEither(fs: FileSystem, base: string, primary: string, fallback: string) returns (co: Option<string>)
    ensures co == FirstOf(fs, base, primary, fallback)
  {
    co := ReadFile(fs, base, primary);
    if co.None? {
      co := ReadFile(fs, base, fallback);
    }
  }

  /**
   * getbattery: reads the files one after another into co, with the two
   * capacities starting at the sentinel -1 and overwritten by a successful
   * sscanf.
   */
  method GetBattery(fs: FileSystem, base: string) returns (b: BatteryReport)
    ensures b == BatteryState(fs, base)
  {
    var descap := -1;
    var remcap := -1;

    var co := ReadFile(fs, base, Present);
    if co.None? {
      return Empty;
    }
    if CharAt(co.value, 0) != '1' {
      return NotPresent;
    }

    co := ReadEither(fs, base, ChargeFullDesign, EnergyFullDesign);
    if co.None? {
      return Empty;
    }
    descap := Sscanf(co.value, descap);

    co := ReadEither(fs, base, ChargeNow, EnergyNow);
    if co.None? {
      return Empty;
    }
    remcap := Sscanf(co.value, remcap);

    co := ReadFile(fs, base, StatusFile);
    if co.None? {
      return StatusUnreadable;
    }
    var status: char;
    if StrnEqual(co.value, "Discharging", 11) {
      status := '-';
    } else if StrnEqual(co.value, "Charging", 8) {
      status := '+';
    } else {
      status := ' ';
    }

    if remcap < 0 || descap < 0 {
      return Invalid;
    }
    return Charge(remcap, descap, status);
  }

  /** The first character of the first line is the first character of the file. */
  lemma FirstCharOfLine(fs: FileSystem, path: string)
    requires FirstLine(fs, path).Some?
    ensures CharAt(FirstLine(fs, path).value, 0) == fs[path][0]
  {
    var text := fs[path];
    var n := LineSpan(text, LineRoom);
    assert text[..n][0] == text[0];
  }

  /**
   * The presence flag alone decides "not present": it is reported exactly when
   * the present file holds something whose first character is not '1',
   * whatever the other battery files contain.
   */
  lemma NotPresentIff(fs: FileSystem, base: string)
    ensures var p := Path(base, Present);
      BatteryState(fs, base) == NotPresent <==> p in fs && fs[p] != [] && fs[p][0] != '1'
  {
    var p := Path(base, Present);
    FirstLineAbsent(fs, p);
    if FirstLine(fs, p).Some? {
      FirstCharOfLine(fs, p);
    }
  }

  /**
   * The empty fragment: the present file is missing or empty, or the battery
   * is present and both files of one capacity pair give nothing.
   */
  lemma EmptyIff(fs: FileSystem, base: string)
    ensures var p := Path(base, Present);
      BatteryState(fs, base) == Empty <==>
        (p !in fs || fs[p] == []) ||
        (fs[p][0] == '1' &&
         ((FirstLine(fs, Path(base, ChargeFullDesign)).None? && FirstLine(fs, Path(base, EnergyFullDesign)).None?) ||
          (FirstLine(fs, Path(base, ChargeNow)).None? && FirstLine(fs, Path(base, EnergyNow)).None?)))
  {
    var p := Path(base, Present);
    FirstLineAbsent(fs, p);
    if FirstLine(fs, p).Some? {
      FirstCharOfLine(fs, p);
    }
  }

  /**
   * "invalid" is reported exactly when the battery is present, both capacities
   * and the status were read, and a capacity failed to convert or is
   * negative. A design capacity of 0 is not among them.
   */
  lemma InvalidIff(fs: FileSystem, base: string)
    ensures BatteryState(fs, base) == Invalid <==>
      && FirstLine(fs, Path(base, Present)).Some?
      && CharAt(FirstLine(fs, Path(base, Present)).value, 0) == '1'
      && FirstOf(fs, base, ChargeFullDesign, EnergyFullDesign).Some?
      && FirstOf(fs, base, ChargeNow, EnergyNow).Some?
      && FirstLine(fs, Path(base, StatusFile)).Some?
      && var design := ScanInt(FirstOf(fs, base, ChargeFullDesign, EnergyFullDesign).value);
         var now := ScanInt(FirstOf(fs, base, ChargeNow, EnergyNow).value);
         design.None? || design.value < 0 || now.None? || now.value < 0
  {
  }

  /** Two file systems that hold the same file at path read the same first line there. */
  lemma SameFile(fs: FileSystem, fs': FileSystem, path: string)
    requires path in fs <==> path in fs'
    requires path in fs ==> fs[path] == fs'[path]
    ensures FirstLine(fs, path) == FirstLine(fs', path)
  {
  }

  /** fs' differs from fs at most in the file at path. */
  ghost predicate AgreeExcept(fs: FileSystem, fs': FileSystem, path: string) {
    && (forall q :: q != path ==> (q in fs <==> q in fs'))
    && (forall q :: q != path && q in fs ==> fs[q] == fs'[q])
  }

  lemma SameFileExcept(fs: FileSystem, fs': FileSystem, base: string, changed: string, file: string)
    requires AgreeExcept(fs, fs', Path(base, changed))
    requires file != changed
    ensures FirstLine(fs, Path(base, file)) == FirstLine(fs', Path(base, file))
  {
    if Path(base, file) == Path(base, changed) {
      PathInjective(base, file, changed);
    }
    SameFile(fs, fs', Path(base, file));
  }

  /**
   * The design capacity comes from charge_full_design whenever that file
   * holds a line, even one that does not convert: energy_full_design is then
   * never consulted, so changing or removing it changes nothing.
   */
  lemma DesignFallbackUnread(fs: FileSystem, fs': FileSystem, base: string)
    requires Path(base, ChargeFullDesign) in fs && fs[Path(base, ChargeFullDesign)] != []
    requires AgreeExcept(fs, fs', Path(base, EnergyFullDesign))
    ensures BatteryState(fs', base) == BatteryState(fs, base)
  {
    FirstLineAbsent(fs, Path(base, ChargeFullDesign));
    SameFileExcept(fs, fs', base, EnergyFullDesign, Present);
    SameFileExcept(fs, fs', base, EnergyFullDesign, ChargeFullDesign);
    SameFileExcept(fs, fs', base, EnergyFullDesign, ChargeNow);
    SameFileExcept(fs, fs', base, EnergyFullDesign, EnergyNow);
    SameFileExcept(fs, fs', base, EnergyFullDesign, StatusFile);
  }

  /** Likewise the current capacity: with charge_now readable, energy_now is never consulted. */
  lemma NowFallbackUnread(fs: FileSystem, fs': FileSystem, base: string)
    requires Path(base, ChargeNow) in fs && fs[Path(base, ChargeNow)] != []
    requires AgreeExcept(fs, fs', Path(base, EnergyNow))
    ensures BatteryState(fs', base) == BatteryState(fs, base)
  {
    FirstLineAbsent(fs, Path(base, ChargeNow));
    SameFileExcept(fs, fs', base, EnergyNow, Present);
    SameFileExcept(fs, fs', base, EnergyNow, ChargeFullDesign);
    SameFileExcept(fs, fs', base, EnergyNow, EnergyFullDesign);
    SameFileExcept(fs, fs', base, EnergyNow, ChargeNow);
    SameFileExcept(fs, fs', base, EnergyNow, StatusFile);
  }

  /**
   * With the battery present and both capacities readable, a missing or empty
   * status file reaches strncmp with NULL, whatever the capacities hold.
   */
  lemma StatusMissingUndefined(fs: FileSystem, base: string)
    requires FirstLine(fs, Path(base, Present)).Some?
    requires CharAt(FirstLine(fs, Path(base, Present)).value, 0) == '1'
    requires FirstOf(fs, base, ChargeFullDesign, EnergyFullDesign).Some?
    requires FirstOf(fs, base, ChargeNow, EnergyNow).Some?
    requires Path(base, StatusFile) !in fs || fs[Path(base, StatusFile)] == []
    ensures BatteryState(fs, base) == StatusUnreadable
  {
    FirstLineAbsent(fs, Path(base, StatusFile));
  }

  /**
   * A battery directory as the kernel fills it: "1", the two charge counters
   * as decimal numerals and a status line. getbattery reports the two counters
   * and the direction of the status line, or "invalid" when a counter is
   * negative; a design capacity of 0 goes through to the division.
   */
  lemma ChargeOfCounters(fs: FileSystem, base: string, design: int, now: int, status: string, rest: string)
    requires Path(base, Present) in fs && fs[Path(base, Present)] == "1\n"
    requires Path(base, ChargeFullDesign) in fs && fs[Path(base, ChargeFullDesign)] == Decimal(design) + "\n"
    requires Path(base, ChargeNow) in fs && fs[Path(base, ChargeNow)] == Decimal(now) + "\n"
    requires Path(base, StatusFile) in fs && fs[Path(base, StatusFile)] == status + "\n" + rest
    requires '\n' !in status && '\0' !in status && |status| < LineRoom
    requires |Decimal(design)| < LineRoom && |Decimal(now)| < LineRoom
    ensures BatteryState(fs, base) ==
      if now < 0 || design < 0 then Invalid else Charge(now, design, Direction(status + "\n"))
  {
    assert fs[Path(base, Present)] == "1" + "\n" + "";
    FirstLineIs(fs, Path(base, Present), "1", "");
    DecimalFile(fs, Path(base, ChargeFullDesign), design);
    DecimalFile(fs, Path(base, ChargeNow), now);
    FirstLineIs(fs, Path(base, StatusFile), status, rest);
  }

  /**
   * A design capacity file holding 0 is not caught by the "invalid" check:
   * the report goes on to the percentage, which divides by the 0.
   */
  lemma ZeroDesignCharges(fs: FileSystem, base: string, now: int, status: string, rest: string)
    requires Path(base, Present) in fs && fs[Path(base, Present)] == "1\n"
    requires Path(base, ChargeFullDesign) in fs && fs[Path(base, ChargeFullDesign)] == "0\n"
    requires Path(base, ChargeNow) in fs && fs[Path(base, ChargeNow)] == Decimal(now) + "\n"
    requires Path(base, StatusFile) in fs && fs[Path(base, StatusFile)] == status + "\n" + rest
    requires '\n' !in status && '\0' !in status && |status| < LineRoom
    requires 0 <= now && |Decimal(now)| < LineRoom
    ensures BatteryState(fs, base) == Charge(now, 0, Direction(status + "\n"))
  {
    assert Decimal(0) == "0";
    ChargeOfCounters(fs, base, 0, now, status, rest);
  }

  /**
   * A driver that reports energy instead of charge: with no charge_full_design
   * and no charge_now, the counters come from energy_full_design and
   * energy_now, with the same outcome as for charge files.
   */
  lemma ChargeOfEnergyCounters(fs: FileSystem, base: string, design: int, now: int, status: string, rest: string)
    requires Path(base, Present) in fs && fs[Path(base, Present)] == "1\n"
    requires Path(base, ChargeFullDesign) !in fs && Path(base, ChargeNow) !in fs
    requires Path(base, EnergyFullDesign) in fs && fs[Path(base, EnergyFullDesign)] == Decimal(design) + "\n"
    requires Path(base, EnergyNow) in fs && fs[Path(base, EnergyNow)] == Decimal(now) + "\n"
    requires Path(base, StatusFile) in fs && fs[Path(base, StatusFile)] == status + "\n" + rest
    requires '\n' !in status && '\0' !in status && |status| < LineRoom
    requires |Decimal(design)| < LineRoom && |Decimal(now)| < LineRoom
    ensures BatteryState(fs, base) ==
      if now < 0 || design < 0 then Invalid else Charge(now, design, Direction(status + "\n"))
  {
    assert fs[Path(base, Present)] == "1" + "\n" + "";
    FirstLineIs(fs, Path(base, Present), "1", "");
    DecimalFile(fs, Path(base, EnergyFullDesign), design);
    DecimalFile(fs, Path(base, EnergyNow), now);
    FirstLineIs(fs, Path(base, StatusFile), status, rest);
  }
}
