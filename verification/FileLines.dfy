/** The lines of a file list: comments, continuations, and what a line says. */
module FileLines {
  import opened Prelude
  import opened FileText

  function RightStrip(s: string): (t: string)
    ensures t <= s && (t != "" ==> !White(t[|t| - 1]))
  {
    if s != "" && White(s[|s| - 1]) then RightStrip(s[..|s| - 1]) else s
  }

  function Strip(s: string): (t: string)
    ensures t != "" ==> !White(t[0]) && !White(t[|t| - 1])
  {
    if s != "" && White(s[0]) then Strip(s[1..]) else RightStrip(s)
  }

  // Neither end is white space.
  predicate Trim(s: string) {
    s == "" || (!White(s[0]) && !White(s[|s| - 1]))
  }

  lemma StripTrim(s: string)
    requires Trim(s)
    ensures Strip(s) == s && RightStrip(s) == s
  {
  }

  // A logical line and the number of the line it starts on.
  datatype Line = Line(number: int, text: string)

  // The lines found so far, and a continued line with the number it started on.
  datatype Scan = Scan(lines: seq<Line>, pending: string, start: int)

  predicate Skipped(line: string) {
    line == "" || "//" <= line || "#" <= line
  }

  predicate Continued(line: string) {
    line != "" && line[|line| - 1] == '\\'
  }

  // A line that is not skipped.
  function Extend(s: Scan, number: int, line: string): Scan {
    var whole := s.pending + line;
    var start := if s.start == 0 then number else s.start;
    if Continued(whole) then Scan(s.lines, RightStrip(whole[..|whole| - 1]) + " ", start)
    else Scan(s.lines + [Line(start, whole)], "", 0)
  }

  function ScanLine(s: Scan, number: int, raw: string): Scan {
    if Skipped(Strip(raw)) then s else Extend(s, number, Strip(raw))
  }

  // The first k raw lines.
  function ScanAll(raw: seq<string>, k: nat): Scan
    requires k <= |raw|
  {
    if k == 0 then Scan([], "", 0) else ScanLine(ScanAll(raw, k - 1), k, raw[k - 1])
  }

  datatype Logical = Lines(lines: seq<Line>) | Unterminated(number: int)

  function LogicalLines(text: string): Logical {
    var s := ScanAll(RawLines(text), |RawLines(text)|);
    if s.pending != "" then Unterminated(s.start) else Lines(s.lines)
  }

  method IterLines(text: string) returns (r: Logical)
    ensures r == LogicalLines(text)
  {
    var raw := RawLines(text);
    var lines: seq<Line>, pending, pendingLine := [], "", 0;
    for k := 0 to |raw|
      invariant ScanAll(raw, k) == Scan(lines, pending, pendingLine)
    {
      var line := Strip(raw[k]);
      if !Skipped(line) {
        lines, pending, pendingLine := JoinLine(lines, pending, pendingLine, k + 1, line);
      }
    }
    if pending != "" {
      return Unterminated(pendingLine);
    }
    r := Lines(lines);
  }

  // Adds a line to the continued one, if there is one.
  method JoinLine(lines: seq<Line>, pending: string, pendingLine: int, number: int, text: string)
    returns (after: seq<Line>, rest: string, restLine: int)
    ensures Scan(after, rest, restLine) == Extend(Scan(lines, pending, pendingLine), number, text)
  {
    after, rest, restLine := lines, pending, pendingLine;
    var line := text;
    if pending != "" {
      line := pending + line;
    }
    assert line == pending + text;
    if line != "" && line[|line| - 1] == '\\' {
      rest := RightStrip(line[..|line| - 1]) + " ";
      if pendingLine == 0 {
        restLine := number;
      }
    } else {
      after := lines + [Line(if pendingLine != 0 then pendingLine else number, line)];
      rest, restLine := "", 0;
    }
  }

  // A logical line: one line, not empty, and at its end neither white space nor a backslash.
  predicate Ended(text: string) {
    Unbroken(text) && text != "" && !White(text[|text| - 1]) && !Continued(text)
  }

  ghost predicate ScanGood(s: Scan) {
    Unbroken(s.pending) && forall i :: 0 <= i < |s.lines| ==> Ended(s.lines[i].text)
  }

  lemma ExtendEnded(s: Scan, number: int, line: string)
    requires line != "" && Trim(line) && Unbroken(line) && ScanGood(s)
    ensures ScanGood(Extend(s, number, line))
  {
    var whole := s.pending + line;
    assert whole[|whole| - 1] == line[|line| - 1];
  }

  lemma {:induction false} StripUnbroken(s: string)
    requires Unbroken(s)
    ensures Unbroken(Strip(s))
  {
    if s != "" && White(s[0]) {
      StripUnbroken(s[1..]);
    }
  }

  /** Every logical line is ended. */
  lemma {:induction false} ScanEnded(raw: seq<string>, k: nat)
    requires k <= |raw| && forall i :: 0 <= i < |raw| ==> Unbroken(raw[i])
    ensures ScanGood(ScanAll(raw, k))
  {
    if k > 0 {
      ScanEnded(raw, k - 1);
      if !Skipped(Strip(raw[k - 1])) {
        StripUnbroken(raw[k - 1]);
        ExtendEnded(ScanAll(raw, k - 1), k, Strip(raw[k - 1]));
      }
    }
  }

  // A line that stands for itself: trimmed, not skipped, not continued.
  predicate Plain(line: string) {
    Trim(line) && !Skipped(line) && !Continued(line)
  }

  // Lines numbered from a given one on.
  function Numbered(texts: seq<string>, first: int): (lines: seq<Line>)
    ensures |lines| == |texts|
    ensures forall i :: 0 <= i < |lines| ==> lines[i] == Line(first + i, texts[i])
  {
    seq(|texts|, i requires 0 <= i < |texts| => Line(first + i, texts[i]))
  }

  lemma ExtendPlain(lines: seq<Line>, number: int, line: string)
    requires Plain(line)
    ensures Extend(Scan(lines, "", 0), number, line) == Scan(lines + [Line(number, line)], "", 0)
  {
    assert "" + line == line;
  }

  lemma {:induction false} ScanSkipped(raw: seq<string>, k: nat)
    requires k <= |raw| && forall i :: 0 <= i < k ==> Trim(raw[i]) && Skipped(raw[i])
    ensures ScanAll(raw, k) == Scan([], "", 0)
  {
    if k > 0 {
      ScanSkipped(raw, k - 1);
      StripTrim(raw[k - 1]);
    }
  }

  lemma ScanPlainLine(s: Scan, number: int, line: string)
    requires s.pending == "" && s.start == 0 && Plain(line)
    ensures ScanLine(s, number, line) == Scan(s.lines + [Line(number, line)], "", 0)
  {
    StripTrim(line);
    ExtendPlain(s.lines, number, line);
  }

  lemma NumberedMore(raw: seq<string>, m: nat, k: nat)
    requires m < k <= |raw|
    ensures Numbered(raw[m..k], m + 1) == Numbered(raw[m..k - 1], m + 1) + [Line(k, raw[k - 1])]
  {
    var all, before, last := Numbered(raw[m..k], m + 1), Numbered(raw[m..k - 1], m + 1), [Line(k, raw[k - 1])];
    forall i | 0 <= i < k - m ensures all[i] == (before + last)[i] {
    }
  }

  /** Skipped lines followed by plain ones are read as the plain ones. */
  lemma {:induction false} ScanPlain(raw: seq<string>, m: nat, k: nat)
    requires m <= k <= |raw|
    requires forall i :: 0 <= i < m ==> Trim(raw[i]) && Skipped(raw[i])
    requires forall i :: m <= i < |raw| ==> Plain(raw[i])
    ensures ScanAll(raw, k) == Scan(Numbered(raw[m..k], m + 1), "", 0)
    decreases k
  {
    if k == m {
      ScanSkipped(raw, k);
      assert Numbered(raw[m..k], m + 1) == [];
    } else {
      ScanPlain(raw, m, k - 1);
      ScanPlainLine(ScanAll(raw, k - 1), k, raw[k - 1]);
      NumberedMore(raw, m, k);
    }
  }

  // The pieces between plus signs, without the empty ones.
  function Pieces(s: string, piece: string): (pieces: seq<string>)
    ensures forall i :: 0 <= i < |pieces| ==> pieces[i] != ""
    decreases |s|
  {
    var done := if piece == "" then [] else [piece];
    if s == "" then done
    else if s[0] == '+' then done + Pieces(s[1..], "")
    else Pieces(s[1..], piece + [s[0]])
  }

  lemma {:induction false} OnePiece(s: string, piece: string)
    requires '+' !in s && piece + s != ""
    ensures Pieces(s, piece) == [piece + s]
    decreases |s|
  {
    if s == "" {
      assert piece + s == piece;
    } else {
      assert piece + [s[0]] + s[1..] == piece + s;
      OnePiece(s[1..], piece + [s[0]]);
    }
  }

  // What a logical line asks for.
  datatype Request =
    | Nested(value: string)
    | Directories(values: seq<string>)
    | Option(line: string)
    | Source(value: string)

  const INCDIR := "+incdir+"

  function Meaning(line: string): Request {
    if line == "-f" || "-f " <= line then Nested(Strip(line[2..]))
    else if INCDIR <= line then Directories(Pieces(line[|INCDIR|..], ""))
    else if "+" <= line || "-" <= line then Option(line)
    else Source(line)
  }

  // The quoted name of an `include directive at the start of a line.
  function IncludeName(line: string): Option<string> {
    var rest := SkipWhite(line);
    if "`include" <= rest && rest != "`include" && White(rest[8]) then
      var after := SkipWhite(rest[8..]);
      if "\"" <= after then Quoted(after[1..], "") else None
    else None
  }

  function SkipWhite(s: string): (t: string)
    ensures |t| <= |s|
  {
    if s != "" && White(s[0]) then SkipWhite(s[1..]) else s
  }

  // A non-empty name up to the next quote.
  function Quoted(s: string, name: string): Option<string>
    decreases |s|
  {
    if s == "" then None
    else if s[0] == '"' then (if name == "" then None else Some(name))
    else Quoted(s[1..], name + [s[0]])
  }
}
