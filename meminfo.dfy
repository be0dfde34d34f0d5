/**
 * getmem: used memory from the fixed line layout of the memory-information
 * file, read field by field with a cursor that moves one line per fscanf.
 */
module MemInfo {
  import opened Wrappers
  import opened Libc
  import opened Files

  /** The lines of a text: the pieces between its newlines. */
  function Lines(text: string): (ls: seq<string>)
    ensures |ls| >= 1
    ensures forall k :: 0 <= k < |ls| ==> '\n' !in ls[k]
  {
    if text == [] then [[]]
    else
      var rest := Lines(text[1..]);
      if text[0] == '\n' then [[]] + rest
      else [[text[0]] + rest[0]] + rest[1..]
  }

  /** The lines put back together, a newline between each two. */
  function Join(ls: seq<string>): string {
    if |ls| == 0 then []
    else if |ls| == 1 then ls[0]
    else ls[0] + "\n" + Join(ls[1..])
  }

  /** Splitting a text into lines loses nothing. */
  lemma {:induction false} JoinLines(text: string)
    ensures Join(Lines(text)) == text
  {
    if text != [] {
      var rest := Lines(text[1..]);
      JoinLines(text[1..]);
      if text[0] == '\n' {
        assert Lines(text)[1..] == rest;
      } else {
        var ls := Lines(text);
        if |rest| == 1 {
          assert ls == [[text[0]] + rest[0]];
        } else {
          assert ls[1..] == rest[1..];
          assert Join(rest) == rest[0] + "\n" + Join(rest[1..]);
          assert Join(ls) == [text[0]] + (rest[0] + "\n" + Join(rest[1..]));
        }
      }
    }
  }

  lemma {:induction false} LinesOfLine(line: string)
    requires '\n' !in line
    ensures Lines(line) == [line]
  {
    if line != [] {
      assert '\n' !in line[1..];
      LinesOfLine(line[1..]);
      assert [line[0]] + line[1..] == line;
    }
  }

  lemma {:induction false} LinesOfLineThen(line: string, tail: string)
    requires '\n' !in line
    ensures Lines(line + "\n" + tail) == [line] + Lines(tail)
  {
    var text := line + "\n" + tail;
    if line == [] {
      assert text[1..] == tail;
    } else {
      assert text[1..] == line[1..] + "\n" + tail;
      assert '\n' !in line[1..];
      LinesOfLineThen(line[1..], tail);
      assert [line[0]] + line[1..] == line;
    }
  }

  /** Joining newline-free lines and splitting again gives the same lines back. */
  lemma {:induction false} LinesJoin(ls: seq<string>)
    requires |ls| >= 1
    requires forall k :: 0 <= k < |ls| ==> '\n' !in ls[k]
    ensures Lines(Join(ls)) == ls
  {
    if |ls| == 1 {
      LinesOfLine(ls[0]);
    } else {
      LinesJoin(ls[1..]);
      LinesOfLineThen(ls[0], Join(ls[1..]));
      assert [ls[0]] + ls[1..] == ls;
    }
  }

  /** fscanf(fd, "Key: %d kB\n", &v) on one line: the value after the key and its colon. */
  function ScanField(line: string, key: string): (r: Option<int>)
    ensures r.Some? ==> key + ":" <= line
  {
    var tag := key + ":";
    if tag <= line then ScanInt(line[|tag|..]) else None
  }

  /** The field read at line k; past the end of the file fscanf converts nothing. */
  function FieldAt(lines: seq<string>, k: nat, key: string): Option<int> {
    if k < |lines| then ScanField(lines[k], key) else None
  }

  /** Positions (from 0) of the lines getmem reads in the memory-information file. */
  const MemTotalLine: nat := 0
  const MemFreeLine: nat := 1
  const BuffersLine: nat := 3
  const CachedLine: nat := 4
  /** The lines the counted loop skips after Cached (i = 0 to 17). */
  const SkippedLines: nat := 18
  const SReclaimableLine: nat := CachedLine + 1 + SkippedLines

  /**
   * What getmem produces. NoMemInfo is the NULL it returns when the file
   * cannot be opened; Unset is a result computed from a variable no fscanf
   * assigned; Used holds the used memory in kB.
   */
  datatype MemReport = NoMemInfo | Unset | Used(kb: int)

  /** The report of getmem for the file at path, from the fields at their fixed lines. */
  function MemUsage(fs: FileSystem, path: string): MemReport {
    if path !in fs then NoMemInfo
    else
      var lines := Lines(fs[path]);
      var total := FieldAt(lines, MemTotalLine, "MemTotal");
      var free := FieldAt(lines, MemFreeLine, "MemFree");
      var buffers := FieldAt(lines, BuffersLine, "Buffers");
      var cached := FieldAt(lines, CachedLine, "Cached");
      var slab := FieldAt(lines, SReclaimableLine, "SReclaimable");
      if total.Some? && free.Some? && buffers.Some? && cached.Some? && slab.Some? then
        Used(total.value - free.value - cached.value - buffers.value - slab.value)
      else Unset
  }

  /**
   * getmem: opens the file and reads the five fields with a cursor that each
   * fscanf moves one line on, skipping one line after MemFree and a counted
   * run of lines after Cached.
   */
  method GetMem(fs: FileSystem, base: string, file: string) returns (m: MemReport)
    ensures m == MemUsage(fs, Path(base, file))
  {
    var path := Path(base, file);
    if path !in fs {
      return NoMemInfo;
    }
    var lines := Lines(fs[path]);
    var cursor: nat := 0;
    var memtotal := FieldAt(lines, cursor, "MemTotal");
    cursor := cursor + 1;
    var memfree := FieldAt(lines, cursor, "MemFree");
    cursor := cursor + 1;
    cursor := cursor + 1;
    var buffered := FieldAt(lines, cursor, "Buffers");
    cursor := cursor + 1;
    var cached := FieldAt(lines, cursor, "Cached");
    cursor := cursor + 1;
    for i := 0 to SkippedLines
      invariant cursor == CachedLine + 1 + i
    {
      cursor := cursor + 1;
    }
    var sreclaimable := FieldAt(lines, cursor, "SReclaimable");
    if memtotal.Some? && memfree.Some? && buffered.Some? && cached.Some? && sreclaimable.Some? {
      m := Used(memtotal.value - memfree.value - cached.value - buffered.value - sreclaimable.value);
    } else {
      m := Unset;
    }
  }

  /** A line as the kernel writes it: the key, a colon, padding, the value and " kB". */
  function Entry(key: string, pad: nat, v: int): string {
    key + ":" + Spaces(pad) + Decimal(v) + " kB"
  }

  function Spaces(n: nat): (s: string)
    ensures |s| == n && AllSpaces(s)
  {
    if n == 0 then [] else " " + Spaces(n - 1)
  }

  /** Reading an entry with its own key gives back its value. */
  lemma ScanEntry(key: string, pad: nat, v: int)
    ensures ScanField(Entry(key, pad, v), key) == Some(v)
  {
    var tag := key + ":";
    var line := Entry(key, pad, v);
    assert line == tag + (Spaces(pad) + Decimal(v) + " kB");
    assert line[|tag|..] == Spaces(pad) + Decimal(v) + " kB";
    ScanDecimal(Spaces(pad), v, " kB");
  }

  /** The file holds the entry for key at line k, with some padding. */
  ghost predicate HasEntryAt(ls: seq<string>, k: nat, key: string, v: int) {
    k < |ls| && exists pad: nat :: ls[k] == Entry(key, pad, v)
  }

  /**
   * For a file laid out as the kernel writes it (five entries at their lines,
   * anything on the other lines), getmem reports
   * MemTotal - MemFree - Cached - Buffers - SReclaimable kB.
   */
  lemma MemUsageOfLayout(fs: FileSystem, path: string, ls: seq<string>,
                         total: int, free: int, buffers: int, cached: int, slab: int)
    requires |ls| >= 1 && forall k :: 0 <= k < |ls| ==> '\n' !in ls[k]
    requires path in fs && fs[path] == Join(ls)
    requires HasEntryAt(ls, MemTotalLine, "MemTotal", total)
    requires HasEntryAt(ls, MemFreeLine, "MemFree", free)
    requires HasEntryAt(ls, BuffersLine, "Buffers", buffers)
    requires HasEntryAt(ls, CachedLine, "Cached", cached)
    requires HasEntryAt(ls, SReclaimableLine, "SReclaimable", slab)
    ensures MemUsage(fs, path) == Used(total - free - cached - buffers - slab)
  {
    LinesJoin(ls);
    assert Lines(fs[path]) == ls;
    FieldAtEntry(ls, MemTotalLine, "MemTotal", total);
    FieldAtEntry(ls, MemFreeLine, "MemFree", free);
    FieldAtEntry(ls, BuffersLine, "Buffers", buffers);
    FieldAtEntry(ls, CachedLine, "Cached", cached);
    FieldAtEntry(ls, SReclaimableLine, "SReclaimable", slab);
    var lines := Lines(fs[path]);
    assert lines == ls;
    assert FieldAt(lines, MemTotalLine, "MemTotal") == Some(total);
    assert FieldAt(lines, MemFreeLine, "MemFree") == Some(free);
    assert FieldAt(lines, BuffersLine, "Buffers") == Some(buffers);
    assert FieldAt(lines, CachedLine, "Cached") == Some(cached);
    assert FieldAt(lines, SReclaimableLine, "SReclaimable") == Some(slab);
    MemUsageOfFields(fs, path, total, free, buffers, cached, slab);
  }

  lemma MemUsageOfFields(fs: FileSystem, path: string, total: int, free: int, buffers: int, cached: int, slab: int)
    requires path in fs
    requires FieldAt(Lines(fs[path]), MemTotalLine, "MemTotal") == Some(total)
    requires FieldAt(Lines(fs[path]), MemFreeLine, "MemFree") == Some(free)
    requires FieldAt(Lines(fs[path]), BuffersLine, "Buffers") == Some(buffers)
    requires FieldAt(Lines(fs[path]), CachedLine, "Cached") == Some(cached)
    requires FieldAt(Lines(fs[path]), SReclaimableLine, "SReclaimable") == Some(slab)
    ensures MemUsage(fs, path) == Used(total - free - cached - buffers - slab)
  {
  }

  lemma FieldAtEntry(ls: seq<string>, k: nat, key: string, v: int)
    requires HasEntryAt(ls, k, key, v)
    ensures FieldAt(ls, k, key) == Some(v)
  {
    var pad: nat :| ls[k] == Entry(key, pad, v);
    ScanEntry(key, pad, v);
  }

  /** getmem reports NULL exactly when the file cannot be opened. */
  lemma MemUsageAbsent(fs: FileSystem, path: string)
    ensures MemUsage(fs, path).NoMemInfo? <==> path !in fs
  {
  }

  /**
   * A file too short to reach the SReclaimable line leaves a variable unset,
   * whatever its first lines hold.
   */
  lemma {:induction false} ShortFileUnset(fs: FileSystem, path: string)
    requires path in fs && |Lines(fs[path])| <= SReclaimableLine
    ensures MemUsage(fs, path) == Unset
  {
  }

  /** MemTotal 16000000, MemFree 8000000, Buffers 100000, Cached 2000000 and SReclaimable 50000 kB give 5850000 kB used. */
  lemma MemUsageExample(fs: FileSystem, path: string, ls: seq<string>)
    requires |ls| >= 1 && forall k :: 0 <= k < |ls| ==> '\n' !in ls[k]
    requires path in fs && fs[path] == Join(ls)
    requires HasEntryAt(ls, MemTotalLine, "MemTotal", 16000000)
    requires HasEntryAt(ls, MemFreeLine, "MemFree", 8000000)
    requires HasEntryAt(ls, BuffersLine, "Buffers", 100000)
    requires HasEntryAt(ls, CachedLine, "Cached", 2000000)
    requires HasEntryAt(ls, SReclaimableLine, "SReclaimable", 50000)
    ensures MemUsage(fs, path) == Used(5850000)
  {
    MemUsageOfLayout(fs, path, ls, 16000000, 8000000, 100000, 2000000, 50000);
  }
}
