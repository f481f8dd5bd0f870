/** A printed entry is read back as itself exactly when its path can stand on a line. */
module FileListReadBack {
  import opened Prelude
  import opened FileText
  import opened FileLines
  import opened FileList
  import opened FileListPrint
  import opened FileListExact

  // The texts a line asks to have resolved.
  function Asked(r: Request): seq<string> {
    match r
    case Nested(value) => [value]
    case Directories(values) => values
    case Option(line) => []
    case Source(value) => [value]
  }

  /** The first logical line of the list asks for no nested list, and what it asks for is
      followed name by name. */
  ghost predicate ReadPlainly(w: World, output: Path)
    requires output in w.texts
  {
    var r := LogicalLines(w.texts[output]);
    r.Lines? && r.lines != [] ==>
      var request := Meaning(r.lines[0].text);
      !request.Nested? && forall t :: t in Asked(request) ==> Plainly(w, output, t)
  }

  // The list that is printed for one entry.
  ghost predicate PrintedAlone(w: World, output: Path, e: Entry, text: string, absolute: bool) {
    && !e.Flag? && Sound(w, e) && Printed(output, e.path, text, absolute)
    && output in w.texts && w.texts[output] == Unlines(BANNER + [Form(e, text)])
  }

  function Form(e: Entry, text: string): string {
    if e.IncDir? then INCDIR + text else text
  }

  lemma OneLine(w: World, output: Path, line: Line)
    requires output in w.texts && LogicalLines(w.texts[output]) == Lines([line])
    ensures Expand(w, output, []) == ExpandLine(w, output, [output], line)
  {
    var one := ExpandLine(w, output, [output], line);
    assert [] + [output] == [output] && [line][1..] == [];
    assert ExpandLines(w, output, [output], [line][1..]) == Ok([]);
    if one.Ok? {
      assert one.value + [] == one.value;
    }
  }

  // What a list of one printed line stands for.
  lemma AloneExpands(w: World, output: Path, line: string)
    requires output in w.texts && w.texts[output] == Unlines(BANNER + [line]) && Unbroken(line)
    ensures var s, number := Strip(line), |BANNER| + 1;
      Expand(w, output, [])
      == if Skipped(s) then Ok([]) else if Continued(s) then Err(OpenEnded(output, number))
         else ExpandLine(w, output, [output], Line(number, s))
  {
    SingleLine(line);
    if !Skipped(Strip(line)) && !Continued(Strip(line)) {
      OneLine(w, output, Line(|BANNER| + 1, Strip(line)));
    } else {
      assert [] + [output] == [output];
    }
  }

  lemma AloneRead(w: World, output: Path, line: string)
    requires output in w.texts && w.texts[output] == Unlines(BANNER + [line]) && Unbroken(line)
    requires ReadPlainly(w, output) && !Skipped(Strip(line)) && !Continued(Strip(line))
    ensures var request := Meaning(Strip(line));
      !request.Nested? && forall t :: t in Asked(request) ==> Plainly(w, output, t)
  {
    SingleLine(line);
  }

  lemma IncDirStripped(text: string, k: int)
    requires k == |RightStrip(text)|
    ensures Strip(INCDIR + text) == INCDIR + text[..k]
    ensures text != "" ==> (k == |text| <==> !White(text[|text| - 1]))
  {
    RightStripAfter(INCDIR, text);
    StripShorter(INCDIR + text);
    assert (INCDIR + text)[0] == '+';
  }

  lemma IncDirContinued(text: string)
    ensures !Skipped(INCDIR + text) && (Continued(INCDIR + text) <==> Continued(text))
  {
    var s := INCDIR + text;
    assert s[0] == '+' && (text != "" ==> s[|s| - 1] == text[|text| - 1]);
  }

  lemma IncDirUnbroken(text: string)
    requires Unbroken(text)
    ensures Unbroken(INCDIR + text)
  {
  }

  lemma IncDirMeans(text: string)
    ensures Meaning(INCDIR + text) == Directories(Pieces(text, ""))
  {
    var line := INCDIR + text;
    assert line[|INCDIR|..] == text && line[0] == '+';
  }

  lemma IncDirTidy(e: Entry, text: string, k: int)
    requires e.IncDir? && Unbroken(text) && text != "" && k == |RightStrip(text)|
    ensures Tidy(e, text) <==> k == |text| && '+' !in text && !Continued(text[..k])
  {
    IncDirStripped(text, k);
    assert k == |text| ==> text[..k] == text;
  }

  // What the line of an include directory stands for, once it is stripped.
  lemma IncDirLineBack(w: World, output: Path, e: Entry, text: string, absolute: bool, k: int, number: int)
    requires e.IncDir? && e.path in w.dirs && Printed(output, e.path, text, absolute) && 0 <= k <= |text|
    requires forall t :: t in Pieces(text[..k], "") ==> Plainly(w, output, t)
    ensures ExpandLine(w, output, [output], Line(number, INCDIR + text[..k])) == Ok([e])
       <==> k == |text| && '+' !in text
  {
    if k < |text| || '+' in text {
      IncDirElsewhere(w, output, e.path, text, absolute, [output], number, k);
    } else {
      assert text[..k] == text;
      IncDirReadBackIff(w, output, e.path, text, absolute, [output], number);
    }
  }

  // From what the stripped line stands for to what the list stands for.
  lemma FromLine(w: World, output: Path, e: Entry, line: string, s: string, tidy: bool)
    requires output in w.texts && w.texts[output] == Unlines(BANNER + [line]) && Unbroken(line) && s == Strip(line)
    requires Skipped(s) || Continued(s) ==> !tidy
    requires !Skipped(s) && !Continued(s) ==>
      (ExpandLine(w, output, [output], Line(|BANNER| + 1, s)) == Ok([e]) <==> tidy)
    ensures Expand(w, output, []) == Ok([e]) <==> tidy
  {
    AloneExpands(w, output, line);
  }

  lemma IncDirBack(w: World, output: Path, e: Entry, text: string, absolute: bool)
    requires PrintedAlone(w, output, e, text, absolute) && ReadPlainly(w, output) && Unbroken(text) && e.IncDir?
    ensures Expand(w, output, []) == Ok([e]) <==> Tidy(e, text)
  {
    var k, line, number := |RightStrip(text)|, INCDIR + text, |BANNER| + 1;
    var s, tidy := INCDIR + text[..k], Tidy(e, text);
    assert text != "" by {
      PrintedText(output, e.path, text, absolute);
    }
    assert tidy <==> k == |text| && '+' !in text && !Continued(text[..k]) by {
      IncDirTidy(e, text, k);
    }
    assert s == Strip(line) && !Skipped(s) && (Continued(s) <==> Continued(text[..k])) by {
      IncDirStripped(text, k);
      IncDirContinued(text[..k]);
    }
    assert Unbroken(line) by {
      IncDirUnbroken(text);
    }
    if !Continued(s) {
      AloneRead(w, output, line);
      IncDirMeans(text[..k]);
      IncDirLineBack(w, output, e, text, absolute, k, number);
    }
    FromLine(w, output, e, line, s, tidy);
  }

  // Stripped of something, a printed path leads elsewhere.
  lemma StrippedSame(w: World, output: Path, path: Path, text: string, absolute: bool, s: string)
    requires Printed(output, path, text, absolute) && s == Strip(text) && s != ""
    requires Plainly(w, output, s) && w.join(output, s) == path
    ensures s == text
  {
    PrintedText(output, path, text, absolute);
    StripShorter(text);
    if s != text {
      if White(text[0]) {
        assert text[..1] == [text[0]] && text[0] != '.' && !absolute;
      }
      ShorterElsewhere(w, output, path, text, absolute, s);
    }
  }

  lemma SourceTidy(e: Entry, text: string)
    requires e.SourceFile? && Unbroken(text) && text == Strip(text)
    requires !Skipped(text) && !Continued(text) && Meaning(text) == Source(text)
    ensures Tidy(e, text)
  {
    StripShorter(text);
    assert text[0] == '+' ==> "+" <= text;
    assert text[0] == '-' ==> "-" <= text;
  }

  // What a source line stands for, once it is stripped.
  lemma SourceLineBack(w: World, output: Path, e: Entry, text: string, absolute: bool, s: string, number: int)
    requires e.SourceFile? && Sound(w, e) && Printed(output, e.path, text, absolute) && Unbroken(text)
    requires s == Strip(text) && !Skipped(s) && !Continued(s) && !Meaning(s).Nested?
    requires forall t :: t in Asked(Meaning(s)) ==> Plainly(w, output, t)
    requires ExpandLine(w, output, [output], Line(number, s)) == Ok([e])
    ensures Tidy(e, text)
  {
    SourceLine(w, output, [output], number, s, e.path);
    assert s in Asked(Meaning(s));
    StrippedSame(w, output, e.path, text, absolute, s);
    SourceTidy(e, text);
  }

  lemma SourceExpands(w: World, output: Path, e: Entry, text: string, number: int)
    requires e.SourceFile? && Sound(w, e) && Meaning(text) == Source(text) && w.join(output, text) == e.path
    ensures ExpandLine(w, output, [output], Line(number, text)) == Ok([e])
  {
  }

  lemma TidyThere(w: World, output: Path, e: Entry, text: string, absolute: bool)
    requires e.SourceFile? && Printed(output, e.path, text, absolute) && Meaning(text) == Source(text)
    requires forall t :: t in Asked(Meaning(text)) ==> Plainly(w, output, t)
    ensures w.join(output, text) == e.path
  {
    assert text in Asked(Meaning(text));
    WholeThere(w, output, e.path, text, absolute);
  }

  lemma SourceBack(w: World, output: Path, e: Entry, text: string, absolute: bool)
    requires PrintedAlone(w, output, e, text, absolute) && ReadPlainly(w, output) && Unbroken(text) && e.SourceFile?
    ensures Expand(w, output, []) == Ok([e]) <==> Tidy(e, text)
  {
    var s, number := Strip(text), |BANNER| + 1;
    if Tidy(e, text) {
      StripTrim(text);
    }
    if !Skipped(s) && !Continued(s) {
      AloneRead(w, output, text);
      if ExpandLine(w, output, [output], Line(number, s)) == Ok([e]) {
        SourceLineBack(w, output, e, text, absolute, s, number);
      }
      if Tidy(e, text) {
        SourceMeaning(e, text);
        TidyThere(w, output, e, text, absolute);
        SourceExpands(w, output, e, text, number);
      }
    }
    FromLine(w, output, e, text, s, Tidy(e, text));
  }
}
