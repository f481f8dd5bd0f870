/** A path with a line break in it is never read back, and with that the exact condition
    for every printed entry. */
module FileListBroken {
  import opened Prelude
  import opened FileText
  import opened FilePaths
  import opened FileShortest
  import opened FileLines
  import opened FileList
  import opened FileListPrint
  import opened FileListRoundTrip
  import opened FileListExact
  import opened FileListReadBack

  lemma {:induction false} JoinedUnbroken(parts: seq<string>)
    requires forall i :: 0 <= i < |parts| ==> Unbroken(parts[i])
    ensures Unbroken(Joined("/", parts))
  {
    if |parts| > 1 {
      JoinedUnbroken(parts[1..]);
    }
  }

  lemma {:induction false} PartsUnbroken(text: string, part: string, i: int)
    requires Unbroken(part) && Unbroken(text) && 0 <= i < |Parts(text, part)|
    ensures Unbroken(Parts(text, part)[i])
    decreases |text|
  {
    if text != "" && text[0] == '/' {
      if i >= |Done(part)| {
        PartsUnbroken(text[1..], "", i - |Done(part)|);
      }
    } else if text != "" {
      PartsUnbroken(text[1..], part + [text[0]], i);
    }
  }

  // A broken printed form comes from a broken name that it does not share with the directory.
  lemma BrokenName(dir: Names, path: Names, absolute: bool) returns (i: int)
    requires Proper(path) && !Unbroken(Rendering(path, dir, absolute))
    ensures 0 <= i < |path| && !Unbroken(path[i]) && (!absolute ==> CommonPrefix(path, dir) <= i)
  {
    var n := if absolute then 0 else CommonPrefix(path, dir);
    if forall i :: n <= i < |path| ==> Unbroken(path[i]) {
      JoinedUnbroken(if absolute then path else RelativeParts(path, dir));
      assert false;
    }
    i :| n <= i < |path| && !Unbroken(path[i]);
  }

  /** What an unbroken text leads to is not what a broken one was printed for. */
  lemma BrokenElsewhere(dir: Names, path: Names, absolute: bool, t: string)
    requires Proper(path) && !Unbroken(Rendering(path, dir, absolute)) && Unbroken(t) && (absolute ==> "/" <= t)
    ensures Lexical(dir, t) != path
  {
    if Lexical(dir, t) == path {
      var i := BrokenName(dir, path, absolute);
      var k := WalkGot(Origin(dir, t), Parts(t, ""));
      if !("/" <= t) {
        CommonPrefixMost(path, dir, k);
      }
      assert path[i] in Parts(t, "");
      var j :| 0 <= j < |Parts(t, "")| && Parts(t, "")[j] == path[i];
      PartsUnbroken(t, "", j);
    }
  }

  // The first line that is split off begins with what had been read of it.
  lemma {:induction false} SplitBegins(text: string, line: string)
    requires Unbroken(line) && line != ""
    ensures SplitLines(text, line) != [] && line <= SplitLines(text, line)[0] <= line + text
    decreases |text|
  {
    if text == "" {
      assert line + text == line;
    } else if !Break(text[0]) {
      assert !("\r\n" <= text);
      assert line + [text[0]] + text[1..] == line + text;
      SplitBegins(text[1..], line + [text[0]]);
    }
  }

  lemma {:induction false} SplitAfter(q: string, rest: string, line: string)
    requires Unbroken(q) && Unbroken(line)
    ensures Unbroken(line + q) && SplitLines(q + rest, line) == SplitLines(rest, line + q)
    decreases |q|
  {
    if q == "" {
      assert q + rest == rest && line + q == line;
    } else {
      assert (q + rest)[0] == q[0] && (q + rest)[1..] == q[1..] + rest;
      assert line + [q[0]] + q[1..] == line + q && !("\r\n" <= q + rest);
      SplitAfter(q[1..], rest, line + [q[0]]);
    }
  }

  lemma {:induction false} RightStripKeeps(q: string, s: string)
    requires q <= s && q != "" && !White(q[|q| - 1])
    ensures q <= RightStrip(s)
    decreases |s|
  {
    if White(s[|s| - 1]) {
      assert |q| < |s| && q <= s[..|s| - 1];
      RightStripKeeps(q, s[..|s| - 1]);
    }
  }

  // The first logical line, finished or not, begins with q.
  ghost predicate Begins(s: Scan, q: string) {
    if s.lines == [] then q <= s.pending else q <= s.lines[0].text
  }

  // A beginning that stays whatever is stripped after it.
  predicate Firm(q: string) {
    q != "" && !White(q[|q| - 1]) && q[|q| - 1] != '\\'
  }

  lemma ExtendBegins(s: Scan, number: int, line: string, q: string)
    requires Firm(q) && (Begins(s, q) || (s.lines == [] && s.pending == "" && q <= line))
    ensures Begins(Extend(s, number, line), q)
  {
    if s.lines == [] {
      var whole := s.pending + line;
      assert q <= whole;
      if Continued(whole) {
        assert |q| < |whole| && q <= whole[..|whole| - 1];
        RightStripKeeps(q, whole[..|whole| - 1]);
      }
    }
  }

  lemma ScanLineBegins(s: Scan, number: int, raw: string, q: string)
    requires Firm(q)
    requires Begins(s, q) || (s == Scan([], "", 0) && q <= Strip(raw) && !Skipped(Strip(raw)))
    ensures Begins(ScanLine(s, number, raw), q)
  {
    if !Skipped(Strip(raw)) {
      ExtendBegins(s, number, Strip(raw), q);
    }
  }

  lemma {:induction false} ScanBegins(raw: seq<string>, m: nat, k: nat, q: string)
    requires Firm(q) && m < k <= |raw| && ScanAll(raw, m) == Scan([], "", 0)
    requires q <= Strip(raw[m]) && !Skipped(Strip(raw[m]))
    ensures Begins(ScanAll(raw, k), q)
    decreases k
  {
    if k > m + 1 {
      ScanBegins(raw, m, k - 1, q);
    }
    ScanLineBegins(ScanAll(raw, k - 1), k, raw[k - 1], q);
  }

  lemma {:induction false} LinesThen(lines: seq<string>, line: string, end: string)
    requires (forall i :: 0 <= i < |lines| ==> Unbroken(lines[i])) && end == Unlines([line])
    ensures RawLines(Unlines(lines + [line])) == lines + RawLines(end)
    decreases |lines|
  {
    if lines == [] {
      assert lines + [line] == [line] && lines + RawLines(end) == RawLines(end);
    } else {
      assert (lines + [line])[0] == lines[0] && (lines + [line])[1..] == lines[1..] + [line];
      SplitFirst(lines[0], Unlines(lines[1..] + [line]), "");
      assert "" + lines[0] == lines[0];
      LinesThen(lines[1..], line, end);
      assert [lines[0]] + (lines[1..] + RawLines(end)) == lines + RawLines(end);
    }
  }

  lemma BannerSplit(line: string)
    ensures var raw := RawLines(Unlines(BANNER + [line]));
      raw == BANNER + RawLines(line + "\n") && ScanAll(raw, |BANNER|) == Scan([], "", 0)
  {
    var end, raw, m := line + "\n", RawLines(Unlines(BANNER + [line])), |BANNER|;
    forall i | 0 <= i < m ensures Trim(BANNER[i]) && Skipped(BANNER[i]) && Unbroken(BANNER[i]) {
      BannerSkipped(i);
    }
    assert Unlines([line]) == end + Unlines([line][1..]) && end + "" == end;
    LinesThen(BANNER, line, end);
    assert forall i :: 0 <= i < m ==> raw[i] == BANNER[i];
    ScanSkipped(raw, m);
  }

  /** What a printed line begins with, the first logical line begins with. */
  lemma FirstLineBegins(line: string, q: string, rest: string)
    requires line == q + rest && Firm(q) && Unbroken(q) && !White(q[0]) && q[0] != '#' && !("//" <= line)
    ensures var r := LogicalLines(Unlines(BANNER + [line]));
      r.Lines? ==> r.lines != [] && q <= r.lines[0].text
  {
    var raw, m := RawLines(Unlines(BANNER + [line])), |BANNER|;
    BannerSplit(line);
    assert line + "\n" == q + (rest + "\n") && "" + q == q;
    SplitAfter(q, rest + "\n", "");
    SplitBegins(rest + "\n", q);
    var first := raw[m];
    assert q <= first <= line + "\n";
    FirstStripped(first, q, line);
    ScanBegins(raw, m, |raw|, q);
  }

  lemma FirstStripped(first: string, q: string, line: string)
    requires q <= first <= line + "\n" && Firm(q) && !White(q[0]) && q[0] != '#' && !("//" <= line)
    ensures q <= Strip(first) && !Skipped(Strip(first))
  {
    StripShorter(first);
    RightStripKeeps(q, first);
    assert Strip(first)[0] == q[0];
  }

  lemma YieldsSome(w: World, list: Path, active: seq<Path>, line: Line)
    requires !Meaning(line.text).Nested?
    ensures ExpandLine(w, list, active, line) != Ok([])
  {
    match Meaning(line.text)
    case Directories(values) => DirectoriesCount(w, list, line.number, values);
    case _ =>
  }

  // If the first line of a list asks for no nested list, it is the one that yields e.
  lemma FirstYields(w: World, output: Path, lines: seq<Line>, e: Entry)
    requires output in w.texts && LogicalLines(w.texts[output]) == Lines(lines)
    requires Expand(w, output, []) == Ok([e]) && (lines != [] ==> !Meaning(lines[0].text).Nested?)
    ensures lines != [] && ExpandLine(w, output, [output], lines[0]) == Ok([e])
  {
    assert [] + [output] == [output];
    assert ExpandLines(w, output, [output], lines) == Ok([e]);
    var first := ExpandLine(w, output, [output], lines[0]);
    var rest := ExpandLines(w, output, [output], lines[1..]);
    YieldsSome(w, output, [output], lines[0]);
    assert first.Ok? && rest.Ok? && first.value + rest.value == [e];
    assert |first.value| == 1 && first.value[0] == (first.value + rest.value)[0];
    assert first.value == [e];
  }

  // The text that was resolved to e.
  lemma AskedFor(w: World, output: Path, line: Line, e: Entry) returns (t: string)
    requires !e.Flag? && Unbroken(line.text) && !Meaning(line.text).Nested?
    requires ExpandLine(w, output, [output], line) == Ok([e])
    ensures t in Asked(Meaning(line.text)) && w.join(output, t) == e.path && Unbroken(t)
    ensures INCDIR + "/" <= line.text || (e.SourceFile? && "/" <= line.text) ==> "/" <= t
  {
    if e.SourceFile? {
      t := line.text;
      SourceLine(w, output, [output], line.number, line.text, e.path);
    } else {
      var values := Pieces(line.text[|INCDIR|..], "");
      assert Meaning(line.text) == Directories(values);
      DirectoriesCount(w, output, line.number, values);
      OneDirectory(w, output, line.number, values);
      t := values[0];
      var rest := line.text[|INCDIR|..];
      assert "" + rest == rest;
      var i, j := PieceWithin(rest, rest, "", 0);
      if INCDIR + "/" <= line.text {
        assert rest[0] == '/';
        FirstPieceBegins(rest);
      }
    }
  }

  lemma FormBegins(e: Entry, text: string) returns (q: string, rest: string)
    requires !e.Flag? && "/" <= text && !("//" <= text)
    ensures Form(e, text) == q + rest && Firm(q) && Unbroken(q) && !White(q[0]) && q[0] != '#'
    ensures !("//" <= Form(e, text)) && q == if e.IncDir? then INCDIR + "/" else "/"
  {
    q, rest := if e.IncDir? then INCDIR + "/" else "/", text[1..];
    assert text == "/" + text[1..];
    assert Form(e, text)[0] == q[0] == if e.IncDir? then '+' else '/';
  }

  /** Whatever lines a broken path falls into, they do not stand for it. */
  lemma BrokenNotReadBack(w: World, output: Path, e: Entry, text: string, absolute: bool)
    requires PrintedAlone(w, output, e, text, absolute) && ReadPlainly(w, output) && !Unbroken(text)
    ensures Expand(w, output, []) != Ok([e])
  {
    var r := LogicalLines(w.texts[output]);
    if Expand(w, output, []) == Ok([e]) {
      assert [] + [output] == [output];
      FirstYields(w, output, r.lines, e);
      ScanEnded(RawLines(w.texts[output]), |RawLines(w.texts[output])|);
      var t := AskedFor(w, output, r.lines[0], e);
      PrintedText(output, e.path, text, absolute);
      if absolute {
        var q, rest := FormBegins(e, text);
        FirstLineBegins(Form(e, text), q, rest);
      }
      BrokenElsewhere(Directory(output), NamesOf(e.path), absolute, t);
      LexicalProper(Directory(output), t);
      PosixOnce(Lexical(Directory(output), t), NamesOf(e.path));
    }
  }

  /** The exact condition: a list printed for one directory or source stands for it if and
      only if the printed path can stand on a line, as long as the first line asks for no
      nested list and no link is met. */
  lemma ReadBackIff(w: World, output: Path, e: Entry, text: string, absolute: bool)
    requires PrintedAlone(w, output, e, text, absolute) && ReadPlainly(w, output)
    ensures Expand(w, output, []) == Ok([e]) <==> Tidy(e, text)
  {
    if !Unbroken(text) {
      BrokenNotReadBack(w, output, e, text, absolute);
    } else if e.IncDir? {
      IncDirBack(w, output, e, text, absolute);
    } else {
      SourceBack(w, output, e, text, absolute);
    }
  }
}
