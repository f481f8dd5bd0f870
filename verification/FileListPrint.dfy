/** The printer of resolved lists, and the fixed point it reaches with the resolver. */
module FileListPrint {
  import opened Prelude
  import opened FileText
  import opened FileLines
  import opened FileList
  import opened FileListResolve

  // In short pieces, since the verifier looks into a literal one character at a time.
  const TOOL := "tools/project/resolve_filelist.py"
  const GENERATED := "// " + ("Generated by " + TOOL) + ". Do not edit."
  const EDIT := "// " + ("Edit the source " + "filelist.f") + " hierarchy instead."
  const BANNER: seq<string> := [GENERATED, EDIT, ""]

  function Shown(entry: Entry, show: Path -> string): string {
    match entry
    case IncDir(path) => INCDIR + show(path)
    case SourceFile(path) => show(path)
    case Flag(line) => line
  }

  function ShownAll(entries: seq<Entry>, show: Path -> string): (lines: seq<string>)
    ensures |lines| == |entries|
    ensures forall i :: 0 <= i < |lines| ==> lines[i] == Shown(entries[i], show)
  {
    seq(|entries|, i requires 0 <= i < |entries| => Shown(entries[i], show))
  }

  // The lines of the printed list.
  function Rendered(entries: seq<Entry>, show: Path -> string): seq<string> {
    BANNER + ShownAll(entries, show)
  }

  method Render(entries: seq<Entry>, show: Path -> string) returns (text: string)
    ensures text == Unlines(Rendered(entries, show))
  {
    var lines := BANNER;
    for i := 0 to |entries|
      invariant lines == BANNER + ShownAll(entries[..i], show)
    {
      match entries[i] {
        case IncDir(path) => lines := lines + [INCDIR + show(path)];
        case SourceFile(path) => lines := lines + [show(path)];
        case Flag(line) => lines := lines + [line];
      }
      assert ShownAll(entries[..i + 1], show) == ShownAll(entries[..i], show) + [Shown(entries[i], show)];
    }
    assert entries[..|entries|] == entries;
    JoinedLines(lines);
    text := Joined("\n", lines) + "\n";
  }

  /** What the entries of a resolved list are: existing directories, existing files that
      are not directories, and option lines. */
  ghost predicate Sound(w: World, e: Entry) {
    match e
    case IncDir(path) => path in w.dirs
    case SourceFile(path) => path in w.texts && path !in w.dirs
    case Flag(line) => Ended(line) && Meaning(line) == Option(line)
  }

  ghost predicate AllSound(w: World, entries: seq<Entry>) {
    forall i :: 0 <= i < |entries| ==> Sound(w, entries[i])
  }

  ghost predicate Sounds(w: World, r: Result<seq<Entry>, Error>) {
    r.Ok? ==> AllSound(w, r.value)
  }

  lemma ThenSounds(w: World, first: Result<seq<Entry>, Error>, second: Result<seq<Entry>, Error>)
    requires Sounds(w, first) && Sounds(w, second)
    ensures Sounds(w, Then(first, second))
  {
  }

  lemma {:induction false} DirectoriesSound(w: World, list: Path, number: int, values: seq<string>)
    ensures Sounds(w, DirectoryEntries(w, list, number, values))
    decreases |values|
  {
    if values != [] {
      DirectoriesSound(w, list, number, values[1..]);
      ThenSounds(w, DirectoryEntry(w, list, number, values[0]), DirectoryEntries(w, list, number, values[1..]));
    }
  }

  lemma {:induction false} ExpandSound(w: World, list: Path, active: seq<Path>)
    ensures Sounds(w, Expand(w, list, active))
    decreases |Left(w, active)|, 0
  {
    if list !in active && list in w.texts && LogicalLines(w.texts[list]).Lines? {
      LeftShrinks(w, active, list);
      ScanEnded(RawLines(w.texts[list]), |RawLines(w.texts[list])|);
      ExpandLinesSound(w, list, active + [list], LogicalLines(w.texts[list]).lines);
    }
  }

  lemma {:induction false} ExpandLinesSound(w: World, list: Path, active: seq<Path>, lines: seq<Line>)
    requires forall i :: 0 <= i < |lines| ==> Ended(lines[i].text)
    ensures Sounds(w, ExpandLines(w, list, active, lines))
    decreases |Left(w, active)|, |lines| + 1
  {
    if lines != [] {
      ExpandLineSound(w, list, active, lines[0]);
      ExpandLinesSound(w, list, active, lines[1..]);
      ThenSounds(w, ExpandLine(w, list, active, lines[0]), ExpandLines(w, list, active, lines[1..]));
    }
  }

  lemma {:induction false} ExpandLineSound(w: World, list: Path, active: seq<Path>, line: Line)
    requires Ended(line.text)
    ensures Sounds(w, ExpandLine(w, list, active, line))
    decreases |Left(w, active)|, 1
  {
    match Meaning(line.text)
    case Nested(value) =>
      if value != "" && Exists(w, w.join(list, value)) {
        ExpandSound(w, w.join(list, value), active);
      }
    case Directories(values) =>
      DirectoriesSound(w, list, line.number, values);
    case _ =>
  }

  // Every source with a local literal include has its directory listed.
  ghost predicate Covered(w: World, entries: seq<Entry>) {
    forall p :: SourceFile(p) in entries && HasLocalInclude(w, p) ==> IncDir(w.parent(p)) in entries
  }

  lemma {:induction false} LocalDirsMembers(w: World, entries: seq<Entry>, p: Path)
    requires SourceFile(p) in entries && HasLocalInclude(w, p)
    ensures w.parent(p) in LocalDirs(w, entries)
    decreases |entries|
  {
    if entries[|entries| - 1] != SourceFile(p) {
      LocalDirsMembers(w, entries[..|entries| - 1], p);
    }
  }

  lemma {:induction false} LocalDirsOrigin(w: World, entries: seq<Entry>, d: Path)
    requires d in LocalDirs(w, entries)
    ensures exists p :: SourceFile(p) in entries && HasLocalInclude(w, p) && w.parent(p) == d
    decreases |entries|
  {
    var before, last := entries[..|entries| - 1], entries[|entries| - 1];
    if d in LocalDirs(w, before) {
      LocalDirsOrigin(w, before, d);
      var p :| SourceFile(p) in before && HasLocalInclude(w, p) && w.parent(p) == d;
      assert SourceFile(p) in entries;
    } else {
      assert SourceFile(last.path) in entries && HasLocalInclude(w, last.path) && w.parent(last.path) == d;
    }
  }

  lemma {:induction false} UnlistedMembers(dirs: seq<Path>, entries: seq<Entry>, e: Entry)
    ensures e in Unlisted(dirs, entries) <==> e.IncDir? && e.path in dirs && e !in entries
    decreases |dirs|
  {
    if dirs != [] {
      UnlistedMembers(dirs[..|dirs| - 1], entries, e);
      assert dirs == dirs[..|dirs| - 1] + [dirs[|dirs| - 1]];
    }
  }

  // The inserted entries: new, distinct include directories.
  lemma InsertedMembers(w: World, entries: seq<Entry>, e: Entry)
    ensures e in Collect([], Unlisted(LocalDirs(w, entries), entries)) <==>
            (e.IncDir? && e.path in LocalDirs(w, entries) && e !in entries)
  {
    CollectMembers([], Unlisted(LocalDirs(w, entries), entries), e);
    UnlistedMembers(LocalDirs(w, entries), entries, e);
  }

  lemma WithImplicitMembers(w: World, entries: seq<Entry>, e: Entry)
    ensures e in WithImplicit(w, entries) <==> e in entries || (e.IncDir? && e.path in LocalDirs(w, entries))
  {
    InsertedMembers(w, entries, e);
    var k := FirstOther(entries);
    assert entries == entries[..k] + entries[k..];
  }

  // Putting distinct new elements into a sequence of distinct ones.
  lemma DistinctInsert(a: seq<Entry>, extra: seq<Entry>, b: seq<Entry>)
    requires Distinct(a + b) && Distinct(extra) && forall e :: e in extra ==> e !in a + b
    ensures Distinct(a + extra + b)
  {
    var all, n := a + extra + b, |a| + |extra|;
    forall i, j | 0 <= i < j < |all| ensures all[i] != all[j] {
      if |a| <= i < n || |a| <= j < n {
        assert |a| <= i < n ==> all[i] == extra[i - |a|] && all[i] in extra;
        assert |a| <= j < n ==> all[j] == extra[j - |a|] && all[j] in extra;
        assert i < |a| ==> all[i] == (a + b)[i];
        assert j >= n ==> all[j] == (a + b)[j - |extra|];
      } else {
        assert all[i] == (a + b)[if i < |a| then i else i - |extra|];
        assert all[j] == (a + b)[if j < |a| then j else j - |extra|];
      }
    }
  }

  lemma WithImplicitDistinct(w: World, entries: seq<Entry>)
    requires Distinct(entries)
    ensures Distinct(WithImplicit(w, entries))
  {
    var k, inserted := FirstOther(entries), Collect([], Unlisted(LocalDirs(w, entries), entries));
    CollectDistinct([], Unlisted(LocalDirs(w, entries), entries));
    assert entries == entries[..k] + entries[k..];
    forall e | e in inserted ensures e !in entries {
      InsertedMembers(w, entries, e);
    }
    DistinctInsert(entries[..k], inserted, entries[k..]);
  }

  // Sources have their directory, and nothing is a file and a directory.
  ghost predicate Tree(w: World) {
    (forall p :: p in w.texts ==> w.parent(p) in w.dirs) && w.texts.Keys !! w.dirs
  }

  // The explicit entries in their order, with new include directories in one place.
  ghost predicate InsertedInto(entries: seq<Entry>, explicit: seq<Entry>) {
    exists k, extra: seq<Entry> ::
      && 0 <= k <= |explicit| && entries == explicit[..k] + extra + explicit[k..]
      && forall e :: e in extra ==> e.IncDir? && e !in explicit
  }

  lemma WithImplicitInserts(w: World, entries: seq<Entry>)
    ensures InsertedInto(WithImplicit(w, entries), entries)
  {
    var k, extra := FirstOther(entries), Collect([], Unlisted(LocalDirs(w, entries), entries));
    forall e | e in extra ensures e.IncDir? && e !in entries {
      InsertedMembers(w, entries, e);
    }
    assert WithImplicit(w, entries) == entries[..k] + extra + entries[k..];
  }

  /** Of every resolved list: the entries are distinct, they are what they are listed as,
      the explicit ones keep their order around the inserted directories, and every source
      with a local literal include has its directory listed. */
  lemma Resolved(w: World, root: Path)
    requires Tree(w) && Resolve(w, root).Ok?
    ensures var entries := Resolve(w, root).value;
      && Distinct(entries) && AllSound(w, entries) && Covered(w, entries)
      && InsertedInto(entries, Collect([], Expand(w, root, []).value))
  {
    var all := Expand(w, root, []).value;
    var explicit := Collect([], all);
    var entries := WithImplicit(w, explicit);
    ExpandSound(w, root, []);
    CollectDistinct([], all);
    WithImplicitDistinct(w, explicit);
    WithImplicitInserts(w, explicit);
    forall i | 0 <= i < |entries| ensures Sound(w, entries[i]) {
      var e := entries[i];
      WithImplicitMembers(w, explicit, e);
      CollectMembers([], all, e);
      if e !in explicit {
        LocalDirsOrigin(w, explicit, e.path);
      }
    }
    forall p | SourceFile(p) in entries && HasLocalInclude(w, p) ensures IncDir(w.parent(p)) in entries {
      WithImplicitMembers(w, explicit, SourceFile(p));
      LocalDirsMembers(w, explicit, p);
      WithImplicitMembers(w, explicit, IncDir(w.parent(p)));
    }
  }

  // A text that can stand on a line of a list for an include directory or a source.
  predicate Tidy(e: Entry, text: string) {
    && Unbroken(text) && text != "" && !White(text[|text| - 1]) && !Continued(text)
    && if e.IncDir? then '+' !in text
       else !White(text[0]) && text[0] != '+' && text[0] != '-' && !Skipped(text)
  }

  /** The printed form of a path can stand on a line, and read from the output file it is
      the path again. */
  ghost predicate Presentable(w: World, output: Path, show: Path -> string, e: Entry) {
    e.Flag? || (Tidy(e, show(e.path)) && w.join(output, show(e.path)) == e.path)
  }

  ghost predicate AllPresentable(w: World, output: Path, show: Path -> string, entries: seq<Entry>) {
    forall i :: 0 <= i < |entries| ==> Presentable(w, output, show, entries[i])
  }

  lemma IncDirMeaning(e: Entry, text: string)
    requires e.IncDir? && Tidy(e, text)
    ensures Plain(INCDIR + text) && Unbroken(INCDIR + text) && Meaning(INCDIR + text) == Directories([text])
  {
    var line := INCDIR + text;
    assert line[|line| - 1] == text[|text| - 1] && line[0] == '+';
    assert line[|INCDIR|..] == text;
    OnePiece(text, "");
    assert "" + text == text;
  }

  lemma SourceMeaning(e: Entry, text: string)
    requires e.SourceFile? && Tidy(e, text)
    ensures Plain(text) && Meaning(text) == Source(text)
  {
    assert !("-" <= text) && !("+" <= text);
  }

  // A printed entry is one plain line, which stands for the entry.
  lemma ShownMeaning(w: World, output: Path, show: Path -> string, e: Entry)
    requires Sound(w, e) && Presentable(w, output, show, e)
    ensures var line := Shown(e, show);
      && Plain(line) && Unbroken(line)
      && Meaning(line) == match e
           case IncDir(path) => Directories([show(path)])
           case SourceFile(path) => Source(show(path))
           case Flag(text) => Option(text)
  {
    match e
    case IncDir(path) => IncDirMeaning(e, show(path));
    case SourceFile(path) => SourceMeaning(e, show(path));
    case Flag(line) => FlagPlain(line);
  }

  lemma FlagPlain(line: string)
    requires Ended(line) && Meaning(line) == Option(line)
    ensures Plain(line)
  {
    assert "+" <= line || "-" <= line;
    assert line[0] == '+' || line[0] == '-';
  }

  lemma ShownExpands(w: World, output: Path, show: Path -> string, e: Entry, active: seq<Path>, number: int)
    requires Sound(w, e) && Presentable(w, output, show, e)
    ensures ExpandLine(w, output, active, Line(number, Shown(e, show))) == Ok([e])
  {
    ShownMeaning(w, output, show, e);
    if e.IncDir? {
      var values := [show(e.path)];
      assert values[1..] == [];
      assert DirectoryEntries(w, output, number, values[1..]) == Ok([]);
      assert DirectoryEntry(w, output, number, values[0]) == Ok([e]);
      assert [e] + [] == [e];
    }
  }

  lemma {:induction false} ShownAllExpand(w: World, output: Path, show: Path -> string, entries: seq<Entry>,
                                          active: seq<Path>, first: int, lines: seq<Line>)
    requires AllSound(w, entries) && AllPresentable(w, output, show, entries)
    requires lines == Numbered(ShownAll(entries, show), first)
    ensures ExpandLines(w, output, active, lines) == Ok(entries)
    decreases |entries|
  {
    if entries != [] {
      var e, rest := entries[0], entries[1..];
      ShownExpands(w, output, show, e, active, first);
      assert lines[0] == Line(first, Shown(e, show));
      assert lines[1..] == Numbered(ShownAll(rest, show), first + 1);
      assert forall i :: 0 <= i < |rest| ==> rest[i] == entries[i + 1];
      ShownAllExpand(w, output, show, rest, active, first + 1, lines[1..]);
      assert [e] + rest == entries;
    }
  }

  lemma {:induction false} CollectSame(before: seq<Entry>, more: seq<Entry>)
    requires Distinct(before + more)
    ensures Collect(before, more) == before + more
    decreases |more|
  {
    if more == [] {
      assert before + more == before;
    } else {
      var e := more[0];
      assert (before + more)[|before|] == e;
      assert forall i :: 0 <= i < |before| ==> (before + more)[i] == before[i];
      assert e !in before;
      assert before + more == (before + [e]) + more[1..];
      CollectSame(before + [e], more[1..]);
    }
  }

  lemma NothingToInsert(w: World, entries: seq<Entry>)
    requires Covered(w, entries)
    ensures WithImplicit(w, entries) == entries
  {
    var missing := Unlisted(LocalDirs(w, entries), entries);
    if missing != [] {
      var e := missing[0];
      UnlistedMembers(LocalDirs(w, entries), entries, e);
      LocalDirsOrigin(w, entries, e.path);
      assert false;
    }
    var k := FirstOther(entries);
    assert entries[..k] + [] + entries[k..] == entries;
  }

  lemma CommentSkipped(text: string, end: string)
    requires Unbroken(text) && Unbroken(end) && end != "" && !White(end[|end| - 1])
    ensures var line := "// " + text + end; Trim(line) && Skipped(line) && Unbroken(line)
  {
    var line := "// " + text + end;
    assert line[..2] == "//";
    assert line[0] == '/' && line[|line| - 1] == end[|end| - 1];
  }

  lemma BannerSkipped(i: int)
    requires 0 <= i < |BANNER|
    ensures Trim(BANNER[i]) && Skipped(BANNER[i]) && Unbroken(BANNER[i])
  {
    CommentSkipped("Generated by " + TOOL, ". Do not edit.");
    CommentSkipped("Edit the source " + "filelist.f", " hierarchy instead.");
  }

  lemma Tail(a: seq<string>, b: seq<string>)
    ensures (a + b)[|a|..|a + b|] == b
  {
  }

  lemma RenderedLines(w: World, output: Path, show: Path -> string, entries: seq<Entry>)
    requires AllSound(w, entries) && AllPresentable(w, output, show, entries)
    ensures LogicalLines(Unlines(Rendered(entries, show))) == Lines(Numbered(ShownAll(entries, show), |BANNER| + 1))
  {
    var raw, m, shown := Rendered(entries, show), |BANNER|, ShownAll(entries, show);
    forall i | 0 <= i < m ensures Trim(raw[i]) && Skipped(raw[i]) && Unbroken(raw[i]) {
      BannerSkipped(i);
    }
    ShownPlain(w, output, show, entries);
    forall i | m <= i < |raw| ensures Plain(raw[i]) && Unbroken(raw[i]) {
      assert raw[i] == shown[i - m];
    }
    SplitUnlines(raw);
    ScanPlain(raw, m, |raw|);
    Tail(BANNER, shown);
  }

  lemma ShownPlain(w: World, output: Path, show: Path -> string, entries: seq<Entry>)
    requires AllSound(w, entries) && AllPresentable(w, output, show, entries)
    ensures forall i :: 0 <= i < |entries| ==> Plain(ShownAll(entries, show)[i]) && Unbroken(ShownAll(entries, show)[i])
  {
    forall i | 0 <= i < |entries| ensures Plain(ShownAll(entries, show)[i]) && Unbroken(ShownAll(entries, show)[i]) {
      ShownMeaning(w, output, show, entries[i]);
    }
  }

  /** Resolving a printed list gives the same entries in the same order. */
  lemma FixedPoint(w: World, output: Path, show: Path -> string, entries: seq<Entry>)
    requires output in w.texts && w.texts[output] == Unlines(Rendered(entries, show))
    requires Distinct(entries) && AllSound(w, entries) && Covered(w, entries)
    requires AllPresentable(w, output, show, entries)
    ensures Resolve(w, output) == Ok(entries)
  {
    RenderedLines(w, output, show, entries);
    var lines := Numbered(ShownAll(entries, show), |BANNER| + 1);
    ShownAllExpand(w, output, show, entries, [] + [output], |BANNER| + 1, lines);
    assert [] + entries == entries;
    CollectSame([], entries);
    NothingToInsert(w, entries);
  }

  // The file system after the output has been written.
  function Written(w: World, output: Path, text: string): World {
    w.(texts := w.texts[output := text])
  }

  // No line of the text includes, from p, a file that is now first written.
  ghost predicate IncludesNot(w: World, output: Path, p: Path, text: string) {
    forall line :: line in RawLines(text) && IncludeName(line).Some? ==>
      w.join(p, IncludeName(line).value) != output
  }

  // Writing the output makes no include directive of a source point at it anew.
  ghost predicate Unaware(w: World, output: Path, entries: seq<Entry>) {
    && output !in w.dirs && SourceFile(output) !in entries
    && (output in w.texts ||
        forall p :: SourceFile(p) in entries && p in w.texts ==> IncludesNot(w, output, p, w.texts[p]))
  }

  lemma WrittenIncludes(w: World, output: Path, text: string, entries: seq<Entry>, p: Path)
    requires Unaware(w, output, entries) && SourceFile(p) in entries && p in w.texts
    ensures HasLocalInclude(Written(w, output, text), p) == HasLocalInclude(w, p)
  {
    var v := Written(w, output, text);
    assert v.texts[p] == w.texts[p];
    forall line | line in RawLines(w.texts[p])
      ensures IncludesLocal(v, p, line) == IncludesLocal(w, p, line)
    {
    }
  }

  /** Resolve, print, resolve: for every list that resolves, writing the printed list to
      the output and resolving that gives the same entries in the same order. */
  lemma ResolveRenderResolve(w: World, root: Path, output: Path, show: Path -> string)
    requires Tree(w) && Resolve(w, root).Ok?
    requires Unaware(w, output, Resolve(w, root).value)
    requires AllPresentable(w, output, show, Resolve(w, root).value)
    ensures var entries := Resolve(w, root).value;
      Resolve(Written(w, output, Unlines(Rendered(entries, show))), output) == Ok(entries)
  {
    var entries := Resolve(w, root).value;
    var v := Written(w, output, Unlines(Rendered(entries, show)));
    Resolved(w, root);
    forall i | 0 <= i < |entries| ensures Sound(v, entries[i]) {
      assert Sound(w, entries[i]);
    }
    forall p | SourceFile(p) in entries && HasLocalInclude(v, p) ensures IncDir(v.parent(p)) in entries {
      var i :| 0 <= i < |entries| && entries[i] == SourceFile(p);
      assert Sound(w, entries[i]);
      WrittenIncludes(w, output, Unlines(Rendered(entries, show)), entries, p);
    }
    forall i | 0 <= i < |entries| ensures Presentable(v, output, show, entries[i]) {
    }
    FixedPoint(v, output, show, entries);
  }
}
