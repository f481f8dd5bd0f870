/** A list that resolves, and whose printed form does not resolve back. */
module FileListPlus {
  import opened Prelude
  import opened FileText
  import opened FilePaths
  import opened FileLines
  import opened FileList
  import opened FileListResolve
  import opened FileListPrint
  import opened FileListRoundTrip
  import opened FileListExact
  import opened FileListReadBack

  // A directory under the root, and in it a list, the file to be printed and an include
  // directory.
  datatype Setting = Setting(home: string, list: string, output: string, inc: string)

  // The names are names, and that of the include directory can stand on a line.
  predicate Sensible(s: Setting) {
    && Name(s.home) && Name(s.list) && Name(s.output) && Name(s.inc) && s.list != s.output
    && Unbroken(s.home) && Tidy(IncDir(s.inc), s.inc)
  }

  function Beside(s: Setting, name: string): Path {
    AsPosix([s.home, name])
  }

  // The list names the include directory; there is nothing else, and no link anywhere.
  ghost function Before(s: Setting): (w: World)
    ensures forall list, text :: w.join(list, text) == AsPosix(Lexical(Directory(list), text))
  {
    World(map[Beside(s, s.list) := Unlines([INCDIR + s.inc])], {AsPosix([]), AsPosix([s.home]), Beside(s, s.inc)},
          (path: Path) => AsPosix(Directory(path)),
          (list: Path, text: string) => AsPosix(Lexical(Directory(list), text)))
  }

  lemma InHome(home: string, name: string)
    requires Name(home) && Name(name)
    ensures Directory(AsPosix([home, name])) == [home]
  {
    var names := [home, name];
    PartsPosix(names);
    assert names[..1] == [home];
  }

  // One entry is collected as it is, and a directory brings no other with it.
  lemma OneCollected(w: World, list: Path, e: Entry)
    requires Expand(w, list, []) == Ok([e]) && e.IncDir?
    ensures Resolve(w, list) == Ok([e])
  {
    assert [e][1..] == [] && [] + [e] == [e] && [e][..0] == [];
    assert Collect([], [e]) == Collect([] + [e], [e][1..]);
    assert LocalDirs(w, [e]) == LocalDirs(w, [e][..0]) + [];
    NothingToInsert(w, [e]);
  }

  lemma ErrorStays(w: World, list: Path, error: Error)
    requires Expand(w, list, []) == Err(error)
    ensures Resolve(w, list) == Err(error)
  {
  }

  lemma OneIncDirResolves(w: World, list: Path, name: string, path: Path)
    requires list in w.texts && LogicalLines(w.texts[list]) == Lines([Line(1, INCDIR + name)])
    requires '+' !in name && name != "" && w.join(list, name) == path && path in w.dirs
    ensures Resolve(w, list) == Ok([IncDir(path)])
  {
    OnePiece(name, "");
    assert "" + name == name;
    IncDirLine(w, list, [list], 1, name);
    OneDirectory(w, list, 1, [name]);
    OneLine(w, list, Line(1, INCDIR + name));
    OneCollected(w, list, IncDir(path));
  }

  lemma LineAlone(line: string)
    requires Plain(line) && Unbroken(line)
    ensures LogicalLines(Unlines([line])) == Lines([Line(1, line)])
  {
    var raw := [line];
    SplitUnlines(raw);
    ScanPlain(raw, 0, 1);
    assert raw[0..1] == raw;
  }

  lemma IncFound(home: string, name: string)
    requires Name(name)
    ensures Lexical([home], name) == [home, name]
  {
    var names := [name];
    PartsJoined(names);
    WalkDown([home], names);
    assert [home] + names == [home, name];
  }

  lemma ListResolves(s: Setting)
    requires Sensible(s)
    ensures Resolve(Before(s), Beside(s, s.list)) == Ok([IncDir(Beside(s, s.inc))])
  {
    IncDirMeaning(IncDir(s.inc), s.inc);
    LineAlone(INCDIR + s.inc);
    InHome(s.home, s.list);
    IncFound(s.home, s.inc);
    OneIncDirResolves(Before(s), Beside(s, s.list), s.inc, Beside(s, s.inc));
  }

  lemma {:induction false} PieceUntil(before: string, after: string, piece: string)
    requires '+' !in before && piece + before != ""
    ensures var pieces := Pieces(before + "+" + after, piece); pieces != [] && pieces[0] == piece + before
    decreases |before|
  {
    var s := before + "+" + after;
    if before == "" {
      assert s[0] == '+' && piece + before == piece;
    } else {
      assert s[0] == before[0] && s[1..] == before[1..] + "+" + after;
      assert piece + [before[0]] + before[1..] == piece + before;
      PieceUntil(before[1..], after, piece + [before[0]]);
    }
  }

  lemma PathLength(home: string, name: string)
    ensures |AsPosix([home, name])| == |home| + |name| + 2 && |AsPosix([home])| == |home| + 1
  {
    assert [home, name][1..] == [name] && Joined("/", [name]) == name && Joined("/", [home]) == home;
  }

  // The first directory that the printed line names is not there.
  lemma NoSuchDirectory(s: Setting, w: World, before: string)
    requires w.texts.Keys == {Beside(s, s.list), Beside(s, s.output)}
    requires w.dirs == {AsPosix([]), AsPosix([s.home]), Beside(s, s.inc)}
    requires 0 < |before| < |s.home|
    ensures !Exists(w, "/" + before)
  {
    PathLength(s.home, s.list);
    PathLength(s.home, s.output);
    PathLength(s.home, s.inc);
    assert |AsPosix([])| == 1;
    forall p | Exists(w, p) ensures |p| != |before| + 1 {
      assert p in w.texts.Keys || p in w.dirs;
    }
  }

  lemma FirstFound(home: string, before: string)
    requires Name(before)
    ensures AsPosix(Lexical([home], "/" + before)) == "/" + before
  {
    var names := [before];
    PartsPosix(names);
    WalkDown([], names);
    assert AsPosix(names) == "/" + before && [] + names == names;
  }

  // A printed list whose one line asks for something that is not there.
  lemma AloneMissing(w: World, output: Path, text: string, value: string)
    requires output in w.texts && w.texts[output] == Unlines(BANNER + [INCDIR + text])
    requires Unbroken(text) && text != "" && !White(text[|text| - 1]) && !Continued(text)
    requires Pieces(text, "") != [] && Pieces(text, "")[0] == value && !Exists(w, w.join(output, value))
    ensures Expand(w, output, []) == Err(Missing(output, |BANNER| + 1, value))
  {
    assert Strip(INCDIR + text) == INCDIR + text by {
      IncDirStripped(text, |RightStrip(text)|);
      assert text[..|text|] == text;
    }
    assert Unbroken(INCDIR + text) && !Skipped(INCDIR + text) && !Continued(INCDIR + text) by {
      IncDirUnbroken(text);
      IncDirContinued(text);
    }
    AloneExpands(w, output, INCDIR + text);
    IncDirLine(w, output, [output], |BANNER| + 1, text);
  }

  lemma IncText(s: Setting, before: string, after: string) returns (rest: string)
    requires Sensible(s) && s.home == before + "+" + after
    ensures Beside(s, s.inc) == ("/" + before) + "+" + rest
    ensures var text := Beside(s, s.inc);
      Unbroken(text) && text != "" && !White(text[|text| - 1]) && !Continued(text)
  {
    var text := Beside(s, s.inc);
    assert [s.home, s.inc][1..] == [s.inc] && Joined("/", [s.inc]) == s.inc;
    assert Joined("/", [s.home, s.inc]) == s.home + "/" + s.inc;
    assert text == "/" + (s.home + "/" + s.inc);
    rest := after + "/" + s.inc;
    assert text == ("/" + before) + "+" + rest;
    assert text[|text| - 1] == s.inc[|s.inc| - 1];
  }

  lemma RenderedAlone(home: string, path: Path)
    ensures Rendered([IncDir(path)], Renderer([home], true)) == BANNER + [INCDIR + path]
  {
    var e := IncDir(path);
    assert ShownAll([e], Renderer([home], true)) == [Shown(e, Renderer([home], true))];
  }

  lemma IncPieces(s: Setting, before: string, after: string)
    requires Sensible(s) && before != "" && '+' !in before && s.home == before + "+" + after
    ensures var pieces := Pieces(Beside(s, s.inc), ""); pieces != [] && pieces[0] == "/" + before
  {
    var value := "/" + before;
    var rest := IncText(s, before, after);
    PieceUntil(value, rest, "");
    assert "" + value == value;
  }

  // What the file system holds when something has been printed to the output.
  lemma AfterPrinting(s: Setting, text: string)
    ensures var w := Written(Before(s), Beside(s, s.output), text);
      && w.texts.Keys == {Beside(s, s.list), Beside(s, s.output)} && w.texts[Beside(s, s.output)] == text
      && w.dirs == {AsPosix([]), AsPosix([s.home]), Beside(s, s.inc)} && w.join == Before(s).join
  {
  }

  lemma ValueAbsent(s: Setting, before: string, text: string)
    requires Sensible(s) && Name(before) && |before| < |s.home|
    ensures var w := Written(Before(s), Beside(s, s.output), text);
      !Exists(w, w.join(Beside(s, s.output), "/" + before))
  {
    AfterPrinting(s, text);
    InHome(s.home, s.output);
    FirstFound(s.home, before);
    NoSuchDirectory(s, Written(Before(s), Beside(s, s.output), text), before);
  }

  lemma PrintedMissing(s: Setting, before: string, after: string, w: World)
    requires Sensible(s) && Name(before) && '+' !in before && s.home == before + "+" + after
    requires w == Written(Before(s), Beside(s, s.output), Unlines(BANNER + [INCDIR + Beside(s, s.inc)]))
    ensures Expand(w, Beside(s, s.output), []) == Err(Missing(Beside(s, s.output), |BANNER| + 1, "/" + before))
  {
    var text := Beside(s, s.inc);
    AfterPrinting(s, Unlines(BANNER + [INCDIR + text]));
    ValueAbsent(s, before, Unlines(BANNER + [INCDIR + text]));
    IncPieces(s, before, after);
    var rest := IncText(s, before, after);
    AloneMissing(w, Beside(s, s.output), text, "/" + before);
  }

  /** A list in a directory with a plus sign in its name resolves to an include directory;
      printed with absolute paths it resolves to an error. */
  lemma PlusNotReadBack(s: Setting, before: string, after: string)
    requires Sensible(s) && Name(before) && '+' !in before && s.home == before + "+" + after
    ensures Resolve(Before(s), Beside(s, s.list)) == Ok([IncDir(Beside(s, s.inc))])
    ensures var text := Unlines(Rendered([IncDir(Beside(s, s.inc))], Renderer([s.home], true)));
      Resolve(Written(Before(s), Beside(s, s.output), text), Beside(s, s.output))
      == Err(Missing(Beside(s, s.output), |BANNER| + 1, "/" + before))
  {
    ListResolves(s);
    RenderedAlone(s.home, Beside(s, s.inc));
    var w := Written(Before(s), Beside(s, s.output), Unlines(BANNER + [INCDIR + Beside(s, s.inc)]));
    PrintedMissing(s, before, after, w);
    ErrorStays(w, Beside(s, s.output), Missing(Beside(s, s.output), |BANNER| + 1, "/" + before));
  }
}
