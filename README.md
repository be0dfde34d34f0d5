# dwmstatus: the samplers and the status line, verified

dwmstatus is a small status-bar program for the dwm window manager. Every 20
seconds it samples a few machine metrics from pseudo-files under `/sys` and
`/proc`, formats each as a short text fragment, joins the six fragments into
one fixed template and stores that line as the root window's name.

This project models the file-content logic of one cycle over an abstract
filesystem, a map from path to file text (a path not in the map is a file
`fopen` cannot open):

- `readfile` (module `Files`): the first line as `fgets` leaves it in the
  zeroed 513-character buffer: at most 511 characters, stopping after the
  first newline, which is kept. The result is the C string in the buffer, so
  an embedded NUL cuts it short. A missing or empty file gives NULL (`None`).
  `ReadFile` is a method that fills an `array` the way `fgets` does. It is
  proved equal to the function `FirstLine`, and the lemmas are about that
  function.
- `getbattery` (module `Battery`): the presence flag, the
  `charge_full_design`/`energy_full_design` and `charge_now`/`energy_now`
  fallback pairs, `sscanf("%d")` into capacities that start at the sentinel
  -1, the `strncmp` classification of the status line, and the "invalid"
  check. `GetBattery` reassigns `co`, `descap` and `remcap` step by step, as
  the C code does, and is proved equal to the function `BatteryState`.
- `getmem` (module `MemInfo`): the fixed line layout of `/proc/meminfo`.
  `GetMem` moves a line cursor one line per `fscanf` and skips 18 lines with a
  counted loop. It is proved equal to `MemUsage`.
- `gettemperature` / `getcputemperature` (module `Sensors`): one sensor, or
  two sensors that must both give a line.
- The format string of `main` and the order of the calls in one cycle (module
  `Status`). `Compose` is the template. `Cycle` is the outcome of one cycle:
  the published line, or the undefined behaviour the cycle runs into.
- `Libc` holds the C library behaviour these rely on: NUL-terminated buffers,
  `strncmp`, and the `%d`/`atof` conversion of a leading integer.

The program's defects are explicit results, not silently fixed:

- A missing or empty status file is `StatusUnreadable`, the `strncmp` on NULL.
- A missing meminfo file is `NoMemInfo`, the NULL passed to `%s`.
- A field no `fscanf` assigned is `Unset`, a read of an uninitialised `int`.
- `Cycle` reports these as `Undefined(defect)`, in the order `main` meets
  them: getmem's unset field first (getmem runs before getbattery), then the
  status `strncmp`, then getmem's NULL in the composition.
- A design capacity of 0 is not rejected: `Charge(now, 0, …)` goes on to the
  percentage, which divides by it.

Float formatting is not carried out. The record `Formats` holds three
functions, one for each rendering: `%02.0f` of a temperature, `%.0f` of the
MiB value and `%.0f` of the percentage. Each is a function of the integer
quantities the model computes: millidegrees with their divisor, used kB, and
the two capacities.

In several places the code does not do what a reader might expect. This model
follows the code:

- readfile keeps the trailing newline.
- A missing or empty `present` file gives the empty fragment, not "not present".
- "invalid" is only for a negative or unparsed capacity, so 0 is accepted.
- A missing or empty status file is undefined behaviour, not a neutral direction.
- getmem's NULL and its uninitialised fields reach the output.
- Files are not closed on every path.

## Model

| member | source | states |
|---|---|---|
| Files.ReadFile | dwmstatus.c:81-101 | filling the zeroed buffer with fgets and copying its C string gives exactly FirstLine of the path base + "/" + file |
| Files.PathInjective | dwmstatus.c:90 | two files of one directory get the same path only when their names are equal |
| Files.LineSpan | dwmstatus.c:96 | fgets takes no more characters than the file has, and no more than the room it is given |
| Files.LineSpanStops | dwmstatus.c:96 | the count fgets takes is n exactly when no newline comes before position n - 1 and n is the room, the end of the file or just after a newline |
| Files.FirstLineAbsent | dwmstatus.c:91-97 | readfile gives NULL if and only if the file cannot be opened or is empty |
| Files.FirstLineBounded | dwmstatus.c:84-100 | a line readfile returns is a prefix of the file, at most 511 characters, NUL-free, with no newline except as its last character |
| Files.FirstLineOfText | dwmstatus.c:88-100 | for a non-empty file without NUL the line is non-empty and ends after the first newline, at 511 characters, or at the end of the file |
| Files.FirstLineIs | dwmstatus.c:96-100 | a file whose first line is shorter than the buffer reads as that line with its newline kept |
| Files.DecimalFile | dwmstatus.c:96-100 | a file holding a decimal numeral and a newline reads as that line, and %d converts it back to the number |
| Libc.CStr | dwmstatus.c:100 | the string copied out of the buffer is a prefix of it, holds no NUL, and stops at the first NUL |
| Libc.CStrStopsAtNul | dwmstatus.c:88-100 | the zeros memset leaves after the stored characters do not change the copied string |
| Libc.CStrOfNulFree | dwmstatus.c:100 | a NUL-free buffer is copied whole |
| Libc.StrnEqualIsPrefix | dwmstatus.c:171-173 | strncmp(a, b, strlen(b)) == 0 if and only if b is a prefix of a |
| Libc.ScanIntSkipsSpace | dwmstatus.c:158 | %d ignores white space before the number |
| Libc.ScanDecimal | dwmstatus.c:158 | %d converts the decimal numeral of any integer back to it, whatever white space precedes it and whatever non-digit follows it |
| MemInfo.Lines | dwmstatus.c:120-127 | splitting a file into lines gives at least one line, none holding a newline |
| MemInfo.JoinLines | dwmstatus.c:120-127 | the lines joined with newlines are the file again |
| MemInfo.LinesJoin | dwmstatus.c:120-127 | newline-free lines joined and split again are the same lines |
| MemInfo.GetMem | dwmstatus.c:103-130 | the cursor walk with the counted skip loop gives exactly MemUsage: NULL for a missing file, Unset when a field is not read, otherwise total - free - cached - buffers - sreclaimable |
| MemInfo.ScanEntry | dwmstatus.c:120-127 | fscanf with "Key: %d kB" reads back the value of a kernel line for that key, whatever its padding |
| MemInfo.MemUsageOfLayout | dwmstatus.c:120-129 | with the five entries at lines 0, 1, 3, 4 and 23 and anything elsewhere, getmem reports MemTotal - MemFree - Cached - Buffers - SReclaimable kB |
| MemInfo.MemUsageAbsent | dwmstatus.c:114-118 | getmem returns NULL if and only if the file cannot be opened |
| MemInfo.ShortFileUnset | dwmstatus.c:125-127 | a file too short to reach the SReclaimable line leaves a variable unset |
| MemInfo.MemUsageExample | dwmstatus.c:129 | MemTotal 16000000, MemFree 8000000, Buffers 100000, Cached 2000000 and SReclaimable 50000 kB give 5850000 kB used |
| Battery.Direction | dwmstatus.c:170-177 | the symbol is '-' exactly for a "Discharging" prefix, '+' exactly for a "Charging" prefix, ' ' exactly for neither |
| Battery.Capacity | dwmstatus.c:140-167 | a capacity is the %d value of its line, or the sentinel -1 when nothing converts; Battery.InvalidIff states what the sentinel decides |
| Battery.ReadEither | dwmstatus.c:152-157 | reading a capacity pair gives the primary file's line, and the fallback's only when the primary gives NULL |
| Battery.GetBattery | dwmstatus.c:132-183 | the step-by-step reads with the -1 sentinels give exactly BatteryState |
| Battery.FirstCharOfLine | dwmstatus.c:146 | co[0] of the present line is the first character of the file |
| Battery.NotPresentIff | dwmstatus.c:143-149 | "not present" if and only if the present file is non-empty and does not start with '1', whatever the other files hold |
| Battery.EmptyIff | dwmstatus.c:143-166 | the empty fragment if and only if present is missing or empty, or it starts with '1' and both files of one capacity pair give NULL |
| Battery.InvalidIff | dwmstatus.c:140-182 | "invalid" if and only if everything up to the status line was read and a capacity did not convert or is negative |
| Battery.SameFile | dwmstatus.c:143-170 | the same file text gives the same line in two filesystems |
| Battery.SameFileExcept | dwmstatus.c:143-170 | changing one battery file does not change what readfile gives for another |
| Battery.DesignFallbackUnread | dwmstatus.c:152-158 | when charge_full_design holds a line, energy_full_design is never consulted: changing it changes nothing |
| Battery.NowFallbackUnread | dwmstatus.c:161-167 | when charge_now holds a line, energy_now is never consulted |
| Battery.StatusMissingUndefined | dwmstatus.c:170-171 | present, both capacities read and the status file missing or empty: strncmp gets NULL |
| Battery.ChargeOfCounters | dwmstatus.c:140-182 | charge_* files as the kernel writes them give the two counters and the status line's direction, or "invalid" when a counter is negative |
| Battery.ChargeOfEnergyCounters | dwmstatus.c:152-182 | with charge_full_design and charge_now missing, energy_full_design and energy_now as the kernel writes them give the two counters and the status line's direction, or "invalid" when a counter is negative |
| Battery.ZeroDesignCharges | dwmstatus.c:179-182 | a design capacity of 0 passes the check and reaches the division |
| Sensors.TemperatureAbsentIff | dwmstatus.c:190-193 | the single-sensor fragment is empty if and only if its file is missing or empty |
| Sensors.CpuTemperatureNeedsBoth | dwmstatus.c:202-208 | the dual-sensor fragment is empty if and only if either file is missing or empty, so it never shows one sensor alone |
| Sensors.ReadingsOfSensors | dwmstatus.c:190-208 | decimal sensor files give value / 1000 for one sensor and the sum / 2000 for two |
| Sensors.NonNumericReadsZero | dwmstatus.c:193 | a line with nothing numeric reads as 0 degrees, not as an empty fragment |
| Status.Compose | dwmstatus.c:235-236 | the line is 27 characters longer than the six fragments together |
| Status.ComposeSlots | dwmstatus.c:235-236 | each fragment sits unchanged between its label and the next one, with the clock after the last space |
| Status.ComposeEnds | dwmstatus.c:235-236 | the line ends with " bat:", the battery fragment, a space and the clock |
| Status.ComposeAllEmpty | dwmstatus.c:235-236 | all-empty fragments give " cpu: gpu: load: mem: bat: " |
| Status.ComposeInjective | dwmstatus.c:235-236 | for fragments of the same lengths, equal lines mean equal fragments |
| Status.CycleDefinedIff | dwmstatus.c:227-236 | a cycle publishes a line if and only if the status strncmp is defined and getmem computed a value; it fails on getmem's NULL if and only if the meminfo file is missing and the status strncmp is defined |
| Status.PublishedEnds | dwmstatus.c:235-236 | a published line starts with " cpu:" and ends with " bat:", the battery fragment, a space and the clock |
| Status.NoBatteryLine | dwmstatus.c:143-145 | without a present file the published line ends in " bat: " and the clock |
| Status.CycleOfReports | dwmstatus.c:228-236 | both temperatures, memory and a charge reported: the cycle publishes the template filled with their renderings, the battery symbol right after the '%' |
| Libc.StrnEqual | dwmstatus.c:171-173 | strncmp(a, b, n) == 0 on the C strings; Libc.StrnEqualIsPrefix states what it decides |
| Libc.ScanInt | dwmstatus.c:158 | the integer %d converts: white space, an optional sign and digits, or none; Libc.ScanDecimal and Libc.ScanIntSkipsSpace state its properties |
| Libc.Sscanf | dwmstatus.c:158-167 | sscanf(co, "%d", &cap) leaves cap unchanged when nothing converts |
| Libc.Atof | dwmstatus.c:193-208 | atof on integer text, 0 when nothing converts; Sensors.NonNumericReadsZero states the 0 case |
| MemInfo.ScanField | dwmstatus.c:120-127 | a field converts only on a line that starts with its key and a colon |
| MemInfo.FieldAt | dwmstatus.c:120-127 | the fscanf at a cursor position, converting nothing past the end of the file; MemInfo.MemUsageOfLayout states what the five reads give |
| Battery.FirstOf | dwmstatus.c:152-157 | the primary file's line, or the fallback's when readfile gives NULL; Battery.DesignFallbackUnread, Battery.NowFallbackUnread and Battery.ChargeOfEnergyCounters state the order |
| Sensors.Temperature | dwmstatus.c:186-194 | gettemperature: no reading for NULL, otherwise atof of the line over 1000; Sensors.TemperatureAbsentIff and Sensors.ReadingsOfSensors state its properties |
| Sensors.CpuTemperature | dwmstatus.c:196-209 | getcputemperature: a reading only when both lines are read, their atof sum over 2000; Sensors.CpuTemperatureNeedsBoth and Sensors.ReadingsOfSensors state its properties |
| Status.TemperatureText | dwmstatus.c:193 | the "%02.0f°C" fragment is empty if and only if there is no reading |
| Status.BatteryText | dwmstatus.c:182 | there is no fragment only for the status strncmp on NULL, and a charge fragment ends with '%' and the direction symbol |
| Status.Assemble | dwmstatus.c:228-236 | a line is published if and only if getmem computed a value and the status strncmp is defined; an unset getmem field is the defect even when the status file is missing too |
| Status.Cycle | dwmstatus.c:228-236 | one pass of main's loop on the files: the five samplers' reports assembled; Status.CycleDefinedIff and Status.CycleOfReports state its properties |
| Status.UnsetBeforeNullStatus | dwmstatus.c:231-232 | with a meminfo file too short for SReclaimable and the status file missing, the cycle fails on the unset field, since getmem runs first |

## Left out

- setstatus and the poll loop of main: X11 output and a loop without end, with no result to state.
- mktimes and settz: they depend on the wall clock, TZ and the time-zone database. The clock fragment is a parameter of `Cycle`.
- loadavg: a system call and `%.2f` formatting. The load fragment is a parameter of `Cycle`.
- smprintf: modelled as string concatenation. Allocation failure and `exit` are not modelled.
- Float formatting: `%02.0f`, `%.0f`, the `(float)` casts and rounding are the functions of `Formats`. So is the result of dividing by a design capacity of 0.
- Libc.Atof: atof's decimal point, exponent, hex and inf/nan syntax are not modelled. atof is read as the leading integer, 0 when none.
- Libc.ScanInt: the 32-bit `int` overflow of `%d` and of getmem's subtraction is not modelled. Integers are unbounded.
- MemInfo.ScanField: each fscanf reads exactly one line. Real fscanf stops at a mismatch inside a line, which could shift later reads. A blank skipped line also behaves differently (`%*[^\n]` fails on it). The trailing "\n" of each format also swallows the next line's leading blanks, which the model's key test at column 0 does not. All three are left out.
- File handles and memory: readfile does not close the file when fgets fails, and getmem never closes its file. Several strings readfile allocates are never freed: gettemperature's co, getcputemperature's co1 and co2, and getbattery's status co. Releasing resources is not modelled.
- Files.FileSystem: a file's text is read as one char per byte. fgets' 511 limit counts bytes, and the model counts chars, so multi-byte text is not modelled.
- The degree sign is one character of the model's strings. In the C source it is a multi-byte UTF-8 sequence.
