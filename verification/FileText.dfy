/** Text files as lines: white space, line breaks, splitting and joining. */
module FileText {

  // White space, as Python's `str.strip` and the pattern `\s` take it.
  predicate White(c: char) {
    || '\t' <= c <= '\r' || '\U{1C}' <= c <= ' ' || c == '\U{85}' || c == '\U{A0}' || c == '\U{1680}'
    || '\U{2000}' <= c <= '\U{200A}' || '\U{2028}' <= c <= '\U{2029}' || c == '\U{202F}' || c == '\U{205F}'
    || c == '\U{3000}'
  }

  // What ends a line for Python's `str.splitlines`.
  predicate Break(c: char) {
    '\n' <= c <= '\r' || '\U{1C}' <= c <= '\U{1E}' || c == '\U{85}' || '\U{2028}' <= c <= '\U{2029}'
  }

  predicate Unbroken(s: string) {
    forall i :: 0 <= i < |s| ==> !Break(s[i])
  }

  // The lines of a text, where `line` is the line being read.
  function SplitLines(text: string, line: string): (lines: seq<string>)
    requires Unbroken(line)
    ensures forall i :: 0 <= i < |lines| ==> Unbroken(lines[i])
    decreases |text|
  {
    if text == "" then (if line == "" then [] else [line])
    else if "\r\n" <= text then [line] + SplitLines(text[2..], "")
    else if Break(text[0]) then [line] + SplitLines(text[1..], "")
    else SplitLines(text[1..], line + [text[0]])
  }

  function RawLines(text: string): (lines: seq<string>)
    ensures forall i :: 0 <= i < |lines| ==> Unbroken(lines[i])
  {
    SplitLines(text, "")
  }

  // Each line with a line feed after it.
  function Unlines(lines: seq<string>): string {
    if lines == [] then "" else lines[0] + "\n" + Unlines(lines[1..])
  }

  // Strings with a separator between them.
  function Joined(separator: string, parts: seq<string>): string {
    if parts == [] then "" else if |parts| == 1 then parts[0]
    else parts[0] + separator + Joined(separator, parts[1..])
  }

  lemma {:induction false} JoinedLines(lines: seq<string>)
    requires lines != []
    ensures Joined("\n", lines) + "\n" == Unlines(lines)
  {
    if |lines| > 1 {
      JoinedLines(lines[1..]);
    }
  }

  lemma {:induction false} SplitFirst(line: string, rest: string, before: string)
    requires Unbroken(before) && Unbroken(line)
    ensures SplitLines(line + "\n" + rest, before) == [before + line] + SplitLines(rest, "")
    decreases |line|
  {
    var text := line + "\n" + rest;
    if line == "" {
      assert text[0] == '\n' && text[1..] == rest && before + line == before;
    } else {
      assert text[0] == line[0] && text[1..] == line[1..] + "\n" + rest;
      assert before + [line[0]] + line[1..] == before + line;
      SplitFirst(line[1..], rest, before + [line[0]]);
    }
  }

  /** Lines without line breaks in them are found again. */
  lemma {:induction false} SplitUnlines(lines: seq<string>)
    requires forall i :: 0 <= i < |lines| ==> Unbroken(lines[i])
    ensures RawLines(Unlines(lines)) == lines
  {
    if lines != [] {
      SplitFirst(lines[0], Unlines(lines[1..]), "");
      SplitUnlines(lines[1..]);
      assert "" + lines[0] == lines[0];
    }
  }
}
