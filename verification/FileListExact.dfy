/** Exactly which printed paths are read back as themselves. */
module FileListExact {
  import opened Prelude
  import opened FileText
  import opened FilePaths
  import opened FileShortest
  import opened FileLines
  import opened FileList
  import opened FileListPrint
  import opened FileListRoundTrip

  lemma {:induction false} DirectoriesCount(w: World, list: Path, number: int, values: seq<string>)
    ensures var r := DirectoryEntries(w, list, number, values); r.Ok? ==> |r.value| == |values|
    decreases |values|
  {
    if values != [] {
      DirectoriesCount(w, list, number, values[1..]);
    }
  }

  lemma {:induction false} DirectoriesOnly(w: World, list: Path, number: int, values: seq<string>, path: Path)
    ensures var r := DirectoryEntries(w, list, number, values); r.Ok? ==> SourceFile(path) !in r.value
    decreases |values|
  {
    if values != [] {
      DirectoriesOnly(w, list, number, values[1..], path);
    }
  }

  lemma StretchOfRest(s: string, d: int, i: int, j: int)
    requires 0 <= d <= |s| && 0 <= i <= j <= |s| - d
    ensures s[d..][i..j] == s[d + i..d + j]
  {
  }

  /** Every piece is a stretch of the text, and has no plus sign in it. */
  lemma {:induction false} PieceWithin(whole: string, s: string, piece: string, k: int) returns (i: int, j: int)
    requires whole == piece + s && 0 <= k < |Pieces(s, piece)| && '+' !in piece
    ensures 0 <= i <= j <= |whole| && Pieces(s, piece)[k] == whole[i..j] && '+' !in whole[i..j]
    decreases |s|
  {
    if s != "" && s[0] != '+' {
      i, j := PieceWithin(whole, s[1..], piece + [s[0]], k);
    } else if k == 0 && piece != "" {
      i, j := 0, |piece|;
      assert whole[0..|piece|] == piece;
    } else {
      var d := |piece| + 1;
      assert whole[d..] == s[1..] == "" + s[1..];
      i, j := PieceWithin(whole[d..], s[1..], "", if piece == "" then k else k - 1);
      StretchOfRest(whole, d, i, j);
      i, j := d + i, d + j;
    }
  }

  // The first piece begins where the text does, unless that is at a plus sign.
  lemma {:induction false} FirstPiece(s: string, piece: string)
    requires piece != ""
    ensures Pieces(s, piece) != [] && Pieces(s, piece)[0][..1] == piece[..1]
    decreases |s|
  {
    if s != "" && s[0] != '+' {
      FirstPiece(s[1..], piece + [s[0]]);
    }
  }

  lemma FirstPieceBegins(text: string)
    requires text != "" && text[0] != '+'
    ensures Pieces(text, "") != [] && Pieces(text, "")[0][..1] == text[..1]
  {
    FirstPiece(text[1..], "" + [text[0]]);
  }

  // A text read in the output file is followed name by name, and meets no link.
  ghost predicate Plainly(w: World, output: Path, t: string) {
    w.join(output, t) == AsPosix(Lexical(Directory(output), t))
  }

  lemma {:induction false} WalkProper(at: Names, parts: seq<string>)
    requires Proper(at) && forall i :: 0 <= i < |parts| ==> Part(parts[i])
    ensures Proper(Walk(at, parts))
  {
    if parts != [] {
      WalkProper(at, parts[..|parts| - 1]);
    }
  }

  lemma LexicalProper(dir: Names, text: string)
    requires Proper(dir)
    ensures Proper(Lexical(dir, text))
  {
    forall i | 0 <= i < |Parts(text, "")| ensures Part(Parts(text, "")[i]) {
      PartsAreParts(text, "", i);
    }
    WalkProper(Origin(dir, text), Parts(text, ""));
  }

  lemma PosixOnce(a: Names, b: Names)
    requires Proper(a) && Proper(b) && AsPosix(a) == AsPosix(b)
    ensures a == b
  {
    PartsPosix(a);
    PartsPosix(b);
  }

  // A path and the text that is printed for it.
  ghost predicate Printed(output: Path, path: Path, text: string, absolute: bool) {
    && Canonical(output) && Canonical(path) && text == RenderPath(path, Directory(output), absolute)
  }

  lemma PrintedText(output: Path, path: Path, text: string, absolute: bool)
    requires Printed(output, path, text, absolute)
    ensures Proper(Directory(output)) && text == Rendering(NamesOf(path), Directory(output), absolute)
    ensures Lexical(Directory(output), text) == NamesOf(path)
    ensures text != "" && ("/" <= text <==> absolute) && !("//" <= text)
  {
    var dir, names := Directory(output), NamesOf(path);
    if absolute {
      AbsoluteStraight(dir, names);
      assert names != [] ==> Joined("/", names)[0] == names[0][0];
    } else {
      RelativeStraight(dir, names);
      if names != dir {
        RelativePartsGood(names, dir);
        assert text[0] == RelativeParts(names, dir)[0][0];
      }
    }
  }

  /** Another text that is no longer leads elsewhere, unless it is absolute where the printed
      one is not. */
  lemma ShorterElsewhere(w: World, output: Path, path: Path, text: string, absolute: bool, t: string)
    requires Printed(output, path, text, absolute) && Plainly(w, output, t)
    requires t != "" && |t| <= |text| && t != text
    requires if absolute then "/" <= t else "/" <= t ==> text[..1] != "."
    ensures w.join(output, t) != path
  {
    var dir := Directory(output);
    PrintedText(output, path, text, absolute);
    NothingElse(dir, NamesOf(path), absolute, t);
    LexicalProper(dir, t);
    if AsPosix(Lexical(dir, t)) == path {
      PosixOnce(Lexical(dir, t), NamesOf(path));
    }
  }

  lemma WholeThere(w: World, output: Path, path: Path, text: string, absolute: bool)
    requires Printed(output, path, text, absolute) && Plainly(w, output, text)
    ensures w.join(output, text) == path
  {
    PrintedText(output, path, text, absolute);
  }

  lemma IncDirLine(w: World, list: Path, active: seq<Path>, number: int, text: string)
    ensures ExpandLine(w, list, active, Line(number, INCDIR + text))
         == if Pieces(text, "") == [] then Err(NoDirectoryName(list, number))
            else DirectoryEntries(w, list, number, Pieces(text, ""))
  {
    var line := INCDIR + text;
    assert line[|INCDIR|..] == text && line[0] == '+';
  }

  lemma OneDirectory(w: World, list: Path, number: int, values: seq<string>)
    requires |values| == 1
    ensures DirectoryEntries(w, list, number, values) == DirectoryEntry(w, list, number, values[0])
  {
    assert values[1..] == [];
    var one := DirectoryEntry(w, list, number, values[0]);
    assert DirectoryEntries(w, list, number, values[1..]) == Ok([]);
    if one.Ok? {
      assert one.value + [] == one.value;
    }
  }

  // The first piece of the beginning of a text, as a stretch of the text.
  lemma PrefixPiece(text: string, k: int) returns (i: int, j: int)
    requires 0 <= k <= |text| && Pieces(text[..k], "") != []
    ensures 0 <= i < j <= |text| && j - i <= k && Pieces(text[..k], "")[0] == text[i..j] && '+' !in text[i..j]
    ensures text[0] != '+' ==> text[i] == text[0]
  {
    PieceNotEmpty(text[..k], 0);
    assert "" + text[..k] == text[..k];
    i, j := PieceWithin(text[..k], text[..k], "", 0);
    assert text[..k][i..j] == text[i..j];
    if text[0] != '+' {
      FirstPieceBegins(text[..k]);
      assert text[i..j][..1] == [text[i]] && text[..k][..1] == [text[0]];
    }
  }

  // The first piece of the beginning of a printed path leads elsewhere, unless it is the path.
  lemma PieceElsewhere(w: World, output: Path, path: Path, text: string, absolute: bool, k: int, t: string)
    requires Printed(output, path, text, absolute) && Plainly(w, output, t) && 0 <= k <= |text|
    requires Pieces(text[..k], "") != [] && t == Pieces(text[..k], "")[0] && (k < |text| || '+' in text)
    ensures w.join(output, t) != path
  {
    PrintedText(output, path, text, absolute);
    var i, j := PrefixPiece(text, k);
    assert t[0] == text[i] && text[..1] == [text[0]];
    ShorterElsewhere(w, output, path, text, absolute, t);
  }

  lemma PieceNotEmpty(s: string, k: int)
    requires 0 <= k < |Pieces(s, "")|
    ensures s != "" && Pieces(s, "")[k] != ""
  {
  }

  // The directories named after +incdir+ by the beginning of a printed path.
  lemma IncDirElsewhere(w: World, output: Path, path: Path, text: string, absolute: bool,
                        active: seq<Path>, number: int, k: int)
    requires Printed(output, path, text, absolute) && 0 <= k <= |text| && (k < |text| || '+' in text)
    requires forall t :: t in Pieces(text[..k], "") ==> Plainly(w, output, t)
    ensures ExpandLine(w, output, active, Line(number, INCDIR + text[..k])) != Ok([IncDir(path)])
  {
    var values := Pieces(text[..k], "");
    IncDirLine(w, output, active, number, text[..k]);
    DirectoriesCount(w, output, number, values);
    if |values| == 1 {
      OneDirectory(w, output, number, values);
      PieceElsewhere(w, output, path, text, absolute, k, values[0]);
    }
  }

  /** An include directory is read back from its printed line if and only if the printed
      path has no plus sign in it. */
  lemma IncDirReadBackIff(w: World, output: Path, path: Path, text: string, absolute: bool,
                          active: seq<Path>, number: int)
    requires Printed(output, path, text, absolute) && path in w.dirs
    requires forall t :: t in Pieces(text, "") ==> Plainly(w, output, t)
    ensures ExpandLine(w, output, active, Line(number, INCDIR + text)) == Ok([IncDir(path)]) <==> '+' !in text
  {
    if '+' in text {
      assert text[..|text|] == text;
      IncDirElsewhere(w, output, path, text, absolute, active, number, |text|);
    } else {
      PrintedText(output, path, text, absolute);
      OnePiece(text, "");
      assert "" + text == text && text in [text];
      WholeThere(w, output, path, text, absolute);
      IncDirLine(w, output, active, number, text);
      OneDirectory(w, output, number, [text]);
    }
  }

  lemma SourceLine(w: World, list: Path, active: seq<Path>, number: int, text: string, path: Path)
    requires !Meaning(text).Nested?
    requires ExpandLine(w, list, active, Line(number, text)) == Ok([SourceFile(path)])
    ensures Meaning(text) == Source(text) && w.join(list, text) == path
  {
    match Meaning(text)
    case Directories(values) => DirectoriesOnly(w, list, number, values, path);
    case _ =>
  }

  lemma RightStripAfter(a: string, b: string)
    requires a != "" && !White(a[|a| - 1])
    ensures RightStrip(a + b) == a + RightStrip(b)
    decreases |b|
  {
    if b == "" {
      assert a + b == a;
    } else if White(b[|b| - 1]) {
      assert (a + b)[..|a + b| - 1] == a + b[..|b| - 1];
      RightStripAfter(a, b[..|b| - 1]);
    }
  }

  lemma {:induction false} StripShorter(s: string)
    ensures |Strip(s)| <= |s| && (|Strip(s)| == |s| ==> Strip(s) == s)
    ensures Strip(s) == s ==> Trim(s)
    ensures s != "" && !White(s[0]) ==> Strip(s) == RightStrip(s) && Strip(s) != "" && Strip(s)[0] == s[0]
    decreases |s|
  {
    if s != "" && White(s[0]) {
      StripShorter(s[1..]);
    } else if s != "" {
      RightStripAfter(s[..1], s[1..]);
      assert s[..1] + s[1..] == s;
    }
  }

  lemma BannerRead(line: string)
    requires Unbroken(line)
    ensures var raw := BANNER + [line]; RawLines(Unlines(raw)) == raw && ScanAll(raw, |BANNER|) == Scan([], "", 0)
  {
    var raw, m := BANNER + [line], |BANNER|;
    forall i | 0 <= i < m ensures Trim(raw[i]) && Skipped(raw[i]) && Unbroken(raw[i]) {
      BannerSkipped(i);
    }
    SplitUnlines(raw);
    ScanSkipped(raw, m);
  }

  /** What is read of one printed line: nothing, if it looks like a comment; an unfinished
      line, if it ends in a backslash; and otherwise its text without white space around it. */
  lemma SingleLine(line: string)
    requires Unbroken(line)
    ensures var s, number := Strip(line), |BANNER| + 1;
      LogicalLines(Unlines(BANNER + [line]))
      == if Skipped(s) then Lines([]) else if Continued(s) then Unterminated(number) else Lines([Line(number, s)])
  {
    var raw, s := BANNER + [line], Strip(line);
    BannerRead(line);
    assert "" + s == s && raw[|raw| - 1] == line;
    assert ScanAll(raw, |raw|) == ScanLine(ScanAll(raw, |raw| - 1), |raw|, line);
  }
}
