/** Python's `str.splitlines` and its inverse, and `str.strip`. */
module Lines {
  import opened Text

  /** The characters at which `str.splitlines` ends a line. */
  predicate IsBreak(c: char) {
    '\n' <= c <= '\r' || '\U{1c}' <= c <= '\U{1e}' || c == '\U{85}' || c == '\U{2028}' || c == '\U{2029}'
  }

  predicate OneLine(s: string) { forall i :: 0 <= i < |s| ==> !IsBreak(s[i]) }

  predicate AllOneLine(lines: seq<string>) { forall i :: 0 <= i < |lines| ==> OneLine(lines[i]) }

  /** `s.splitlines()`; a carriage return and the line feed after it end one line. */
  function SplitLines(s: string): (r: seq<string>)
    ensures r == [] <==> s == ""
    decreases |s|
  {
    if s == "" then []
    else if IsBreak(s[0]) then
      [""] + SplitLines(if s[0] == '\r' && |s| > 1 && s[1] == '\n' then s[2..] else s[1..])
    else if |s| == 1 then [s]
    else
      var rest := SplitLines(s[1..]);
      [[s[0]] + rest[0]] + rest[1..]
  }

  lemma {:induction false} SplitLinesAreLines(s: string)
    ensures AllOneLine(SplitLines(s))
    decreases |s|
  {
    if s != "" {
      if IsBreak(s[0]) {
        SplitLinesAreLines(if s[0] == '\r' && |s| > 1 && s[1] == '\n' then s[2..] else s[1..]);
      } else if |s| > 1 {
        SplitLinesAreLines(s[1..]);
      }
    }
  }

  /** `"\n".join(lines) + "\n"` for a non-empty list. */
  function Unlines(lines: seq<string>): string {
    if lines == [] then "" else lines[0] + "\n" + Unlines(lines[1..])
  }

  lemma {:induction false} FirstLine(line: string, rest: string)
    requires OneLine(line)
    ensures SplitLines(line + "\n" + rest) == [line] + SplitLines(rest)
  {
    var s := line + "\n" + rest;
    if line == "" {
      assert s[1..] == rest;
    } else {
      FirstLine(line[1..], rest);
      assert s[1..] == line[1..] + "\n" + rest;
      assert s[0] == line[0] && [line[0]] + line[1..] == line;
    }
  }

  lemma {:induction false} SplitUnlines(lines: seq<string>)
    requires AllOneLine(lines)
    ensures SplitLines(Unlines(lines)) == lines
  {
    if lines != [] {
      SplitUnlines(lines[1..]);
      FirstLine(lines[0], Unlines(lines[1..]));
    }
  }

  lemma {:induction false} SoleLine(line: string)
    requires OneLine(line) && line != ""
    ensures SplitLines(line) == [line]
  {
    if |line| > 1 {
      SoleLine(line[1..]);
      assert [line[0]] + line[1..] == line;
    }
  }

  /** Joining with line feeds and splitting again: exact unless the last line is empty. */
  lemma {:induction false} SplitJoined(lines: seq<string>)
    requires AllOneLine(lines) && lines != [] && lines[|lines| - 1] != ""
    ensures SplitLines(Join(lines, '\n')) == lines
  {
    if |lines| == 1 {
      SoleLine(lines[0]);
    } else {
      SplitJoined(lines[1..]);
      FirstLine(lines[0], Join(lines[1..], '\n'));
    }
  }

  lemma {:induction false} JoinedIsUnlines(lines: seq<string>)
    requires lines != []
    ensures Join(lines, '\n') + "\n" == Unlines(lines)
  {
    if |lines| > 1 {
      JoinedIsUnlines(lines[1..]);
    }
  }

  // ---------------------------------------------------------------- strip

  function StripRight(s: string): string {
    if s != "" && IsSpace(s[|s| - 1]) then StripRight(s[..|s| - 1]) else s
  }

  function StripLeft(s: string): string {
    if s != "" && IsSpace(s[0]) then StripLeft(s[1..]) else s
  }

  /** `s.strip()` */
  function Strip(s: string): string { StripRight(StripLeft(s)) }

  lemma {:induction false} BlankStrips(s: string)
    requires Blank(s)
    ensures StripLeft(s) == "" && Strip(s) == ""
  {
    if s != "" {
      BlankStrips(s[1..]);
    }
  }
}
