/**
 * The filesystem as the status bar sees it, and readfile: the first line of
 * a file, as fgets leaves it in a zeroed buffer.
 */
module Files {
  import opened Wrappers
  import opened Libc

  /**
   * The text of every file that can be opened for reading, by path. A path
   * that is not in the map is one fopen fails on.
   */
  type FileSystem = map<string, string>

  /** The path smprintf("%s/%s", base, file) builds. */
  function Path(base: string, file: string): string {
    base + "/" + file
  }

  /** Two files of one directory have the same path only when they have the same name. */
  lemma PathInjective(base: string, f: string, g: string)
    requires Path(base, f) == Path(base, g)
    ensures f == g
  {
    assert f == Path(base, f)[|base| + 1..];
    assert g == Path(base, g)[|base| + 1..];
  }

  /** char line[513], the buffer readfile fills. */
  const BufferSize: nat := 513

  /** fgets(line, sizeof(line) - 1, fd) stores at most 511 characters before its terminator. */
  const LineRoom: nat := 511

  /**
   * How many characters fgets takes from text when it may store room of them:
   * it stops after the first newline, at the end of the text, or when the room
   * is used up.
   */
  function LineSpan(text: string, room: nat): (n: nat)
    ensures n <= |text| && n <= room
  {
    if room == 0 || text == [] then 0
    else if text[0] == '\n' then 1
    else 1 + LineSpan(text[1..], room - 1)
  }

  /** n is where fgets stops: no newline before position n - 1, and n ends the line. */
  predicate StopsAt(text: string, room: nat, n: nat) {
    && n <= |text| && n <= room
    && (forall j :: 0 <= j < n - 1 ==> text[j] != '\n')
    && (n == room || n == |text| || (0 < n && text[n - 1] == '\n'))
  }

  /** LineSpan is exactly the point where fgets stops. */
  lemma {:induction false} LineSpanStops(text: string, room: nat, n: nat)
    ensures LineSpan(text, room) == n <==> StopsAt(text, room, n)
  {
    if room == 0 || text == [] {
    } else if text[0] == '\n' {
    } else {
      if n == 0 {
        assert !StopsAt(text, room, n);
      } else {
        LineSpanStops(text[1..], room - 1, n - 1);
        assert StopsAt(text, room, n) <==> StopsAt(text[1..], room - 1, n - 1) by {
          if StopsAt(text[1..], room - 1, n - 1) {
            forall j | 0 <= j < n - 1 ensures text[j] != '\n' {
              if j > 0 { assert text[j] == text[1..][j - 1]; }
            }
          }
          if StopsAt(text, room, n) {
            forall j | 0 <= j < n - 2 ensures text[1..][j] != '\n' {
              assert text[1..][j] == text[j + 1];
            }
            if n < room && n < |text| {
              assert text[1..][n - 2] == text[n - 1];
            }
          }
        }
      }
    }
  }

  /**
   * What readfile(base, file) returns for the file at path: absent when the
   * file cannot be opened or fgets finds no character; otherwise the C string
   * fgets left in the buffer.
   */
  function FirstLine(fs: FileSystem, path: string): Option<string> {
    if path !in fs then None
    else
      var n := LineSpan(fs[path], LineRoom);
      if n == 0 then None else Some(CStr(fs[path][..n]))
  }

  /**
   * readfile: opens the file, reads one line with fgets into a zeroed buffer
   * and returns a copy of the string in it.
   */
  method ReadFile(fs: FileSystem, base: string, file: string) returns (line: Option<string>)
    ensures line == FirstLine(fs, Path(base, file))
  {
    var path := Path(base, file);
    var buf := new char[BufferSize](_ => '\0');
    if path !in fs {
      return None;
    }
    var text := fs[path];
    var n := 0;
    var atEnd := false;
    while n < LineRoom && n < |text| && !atEnd
      invariant n <= LineRoom && n <= |text|
      invariant buf.Length == BufferSize
      invariant buf[..n] == text[..n]
      invariant forall j :: n <= j < BufferSize ==> buf[j] == '\0'
      invariant forall j :: 0 <= j < n - 1 ==> text[j] != '\n'
      invariant atEnd <==> 0 < n && text[n - 1] == '\n'
    {
      buf[n] := text[n];
      atEnd := text[n] == '\n';
      n := n + 1;
    }
    LineSpanStops(text, LineRoom, n);
    if n == 0 {
      return None;
    }
    assert buf[..] == text[..n] + buf[n..];
    CStrStopsAtNul(text[..n], buf[n..]);
    line := Some(CStr(buf[..]));
  }

  /** readfile gives absent exactly when the file cannot be opened or is empty. */
  lemma FirstLineAbsent(fs: FileSystem, path: string)
    ensures FirstLine(fs, path).None? <==> path !in fs || fs[path] == []
  {
  }

  /**
   * What readfile returns is a prefix of the file, shorter than the buffer,
   * with no NUL, and with no newline except as its last character.
   */
  lemma FirstLineBounded(fs: FileSystem, path: string)
    requires FirstLine(fs, path).Some?
    ensures var s := FirstLine(fs, path).value;
      && s <= fs[path] && |s| <= LineRoom && '\0' !in s
      && forall j :: 0 <= j < |s| - 1 ==> s[j] != '\n'
  {
    var text := fs[path];
    var n := LineSpan(text, LineRoom);
    LineSpanStops(text, LineRoom, n);
    var s := CStr(text[..n]);
    assert s <= text[..n];
    forall j | 0 <= j < |s| - 1 ensures s[j] != '\n' {
      assert s[j] == text[j];
    }
  }

  /**
   * For a file without NUL characters readfile returns the whole first line:
   * a non-empty prefix that ends just after the first newline, or holds 511
   * characters, or is the whole file.
   */
  lemma FirstLineOfText(fs: FileSystem, path: string)
    requires path in fs && fs[path] != [] && '\0' !in fs[path]
    ensures FirstLine(fs, path).Some?
    ensures var s := FirstLine(fs, path).value;
      && s != [] && s <= fs[path]
      && (forall j :: 0 <= j < |s| - 1 ==> s[j] != '\n')
      && (|s| == LineRoom || s == fs[path] || s[|s| - 1] == '\n')
  {
    var text := fs[path];
    var n := LineSpan(text, LineRoom);
    LineSpanStops(text, LineRoom, n);
    assert '\0' !in text[..n];
    CStrOfNulFree(text[..n]);
  }

  /** A file whose first line is line (shorter than the buffer) reads as that line with its newline. */
  lemma FirstLineIs(fs: FileSystem, path: string, line: string, rest: string)
    requires path in fs && fs[path] == line + "\n" + rest
    requires '\n' !in line && '\0' !in line && |line| < LineRoom
    ensures FirstLine(fs, path) == Some(line + "\n")
  {
    var text := fs[path];
    var n := |line| + 1;
    assert text[..n] == line + "\n";
    forall j | 0 <= j < n - 1 ensures text[j] != '\n' {
      assert text[j] == line[j];
    }
    LineSpanStops(text, LineRoom, n);
    CStrOfNulFree(line + "\n");
  }

  /** A file holding one decimal numeral reads back, through readfile and %d, as that number. */
  lemma DecimalFile(fs: FileSystem, path: string, v: int)
    requires path in fs && fs[path] == Decimal(v) + "\n"
    requires |Decimal(v)| < LineRoom
    ensures FirstLine(fs, path) == Some(Decimal(v) + "\n")
    ensures ScanInt(Decimal(v) + "\n") == Some(v)
  {
    var d := Decimal(v);
    assert '\n' !in d && '\0' !in d by {
      if v < 0 {
        assert d[1..] == NatDecimal(-v);
      }
      forall j | 0 <= j < |d| ensures d[j] != '\n' && d[j] != '\0' {
        if v < 0 && j > 0 {
          assert d[j] == NatDecimal(-v)[j - 1];
        }
      }
    }
    assert fs[path] == d + "\n" + "";
    FirstLineIs(fs, path, d, "");
    ScanDecimal("", v, "\n");
    assert "" + d + "\n" == d + "\n";
  }
}
