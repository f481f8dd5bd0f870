/** What a resolved list holds, on the lines of the lists that are reached: exactly the
    entries that these lines name, and the directories that sources need for what they include. */
module FileListNested {
  import opened Prelude
  import opened FileText
  import opened FileLines
  import opened FileList
  import opened FileListResolve
  import opened FileListLaws
  import opened FileListPrint
  import opened FileListMeaning

  // The line is -f, white space and a name.
  ghost predicate ListLine(text: string, name: string) {
    && Trim(name) && name != "" && "-f " <= text
    && exists pad :: Blank(pad) && text == "-f " + pad + name
  }

  // The list has a line that names the other one.
  ghost predicate Reads(w: World, list: Path, nested: Path) {
    exists line, name :: HasLine(w, list, line) && ListLine(line.text, name) && nested == w.join(list, name)
      && (nested in w.texts || nested in w.dirs)
  }

  lemma {:induction false} RightStripParts(s: string) returns (right: string)
    ensures Blank(right) && s == RightStrip(s) + right
    decreases |s|
  {
    if s != "" && White(s[|s| - 1]) {
      var more := RightStripParts(s[..|s| - 1]);
      right := more + [s[|s| - 1]];
    } else {
      right := "";
    }
  }

  lemma {:induction false} StripParts(s: string) returns (left: string, right: string)
    ensures Blank(left) && Blank(right) && s == left + Strip(s) + right
    decreases |s|
  {
    if s != "" && White(s[0]) {
      var more;
      more, right := StripParts(s[1..]);
      left := [s[0]] + more;
    } else {
      left := "";
      right := RightStripParts(s);
    }
  }

  lemma Ends(s: string, left: string, name: string, right: string)
    requires name != "" && s == left + name + right
    ensures left == "" ==> s[0] == name[0]
    ensures right != "" ==> s[|s| - 1] == right[|right| - 1]
  {
  }

  // White space, then a name that goes up to the end.
  lemma PadAndName(rest: string, left: string, name: string, right: string) returns (pad: string)
    requires rest != "" && White(rest[0]) && !White(rest[|rest| - 1])
    requires Blank(left) && Blank(right) && name != "" && !White(name[0]) && rest == left + name + right
    ensures Blank(pad) && rest == rest[..1] + pad + name
  {
    Ends(rest, left, name, right);
    pad := left[1..];
    assert left == rest[..1] + pad && right == "";
  }

  lemma NotAlone(text: string)
    requires Meaning(text).Nested? && Meaning(text).value != ""
    ensures "-f " <= text && Meaning(text).value == Strip(text[2..])
  {
  }

  lemma ListText(text: string, rest: string, pad: string, name: string)
    requires "-f " <= text && rest == text[2..] && rest == rest[..1] + pad + name
    ensures text == "-f " + pad + name
  {
    assert text == text[..2] + rest && text[..2] + rest[..1] == text[..3];
  }

  // What a logical line that names a list looks like.
  lemma NestedShape(text: string)
    requires Ended(text) && Meaning(text).Nested? && Meaning(text).value != ""
    ensures ListLine(text, Meaning(text).value)
  {
    var rest, name := text[2..], Meaning(text).value;
    NotAlone(text);
    assert rest[0] == ' ' && rest[|rest| - 1] == text[|text| - 1];
    var left, right := StripParts(rest);
    var pad := PadAndName(rest, left, name, right);
    ListText(text, rest, pad, name);
  }

  lemma LinesEnded(w: World, list: Path, line: Line)
    requires HasLine(w, list, line)
    ensures Ended(line.text)
  {
    ScanEnded(RawLines(w.texts[list]), |RawLines(w.texts[list])|);
  }

  lemma EdgeIff(w: World, list: Path, nested: Path)
    ensures Edge(w, list, nested) <==> Reads(w, list, nested)
  {
    if Edge(w, list, nested) {
      var line :| HasLine(w, list, line) && Names(w, list, line, nested);
      LinesEnded(w, list, line);
      NestedShape(line.text);
    }
    forall line, name | HasLine(w, list, line) && ListLine(line.text, name) && nested == w.join(list, name)
                        && (nested in w.texts || nested in w.dirs)
      ensures Edge(w, list, nested)
    {
      var pad :| Blank(pad) && line.text == "-f " + pad + name;
      NestedMeans(pad, name);
      assert Names(w, list, line, nested);
    }
  }

  // Each list of the chain has a line that names the next.
  ghost predicate Reading(w: World, chain: seq<Path>) {
    forall i :: 0 < i < |chain| ==> Reads(w, chain[i - 1], chain[i])
  }

  lemma ReadingIff(w: World, chain: seq<Path>)
    ensures Reading(w, chain) <==> Chain(w, chain)
  {
    forall i | 0 < i < |chain| ensures Reads(w, chain[i - 1], chain[i]) <==> Edge(w, chain[i - 1], chain[i]) {
      EdgeIff(w, chain[i - 1], chain[i]);
    }
  }

  // A chain of -f lines from the root that comes back to a list it has been through.
  ghost predicate ReadingLoop(w: World, root: Path, chain: seq<Path>) {
    && |chain| > 1 && chain[0] == root && Reading(w, chain)
    && exists i :: 0 <= i < |chain| - 1 && chain[i] == chain[|chain| - 1]
  }

  lemma LoopIff(w: World, root: Path, chain: seq<Path>)
    ensures ReadingLoop(w, root, chain) <==> Looping(w, root, chain)
  {
    ReadingIff(w, chain);
    if chain != [] {
      var before, last := chain[..|chain| - 1], chain[|chain| - 1];
      if last in before {
        var i :| 0 <= i < |before| && before[i] == last;
        assert chain[i] == last;
      }
      forall i | 0 <= i < |before| && chain[i] == last ensures last in before {
        assert before[i] == last;
      }
    }
  }

  /** The error for a cycle, on the text of the lines: it carries a chain of lines of `-f` and
      a name that comes back to a list it has been through; with such a chain from the root
      nothing is resolved; so unless some other error arises a cycle is reported exactly when
      there is one. */
  lemma CycleOnLines(w: World, root: Path)
    ensures var r := Resolve(w, root);
      && (r.Err? && r.error.Cycle? ==> ReadingLoop(w, root, r.error.lists))
      && ((exists chain :: ReadingLoop(w, root, chain)) ==> r.Err?)
      && (r.Ok? || r.error.Cycle? ==> (r.Err? <==> exists chain :: ReadingLoop(w, root, chain)))
  {
    CycleReportedIff(w, root);
    forall chain ensures ReadingLoop(w, root, chain) <==> Looping(w, root, chain) {
      LoopIff(w, root, chain);
    }
  }

  /** What reading a list comes to: a cycle, no text, an unfinished line, or its lines. */
  lemma ListRead(w: World, list: Path, active: seq<Path>)
    ensures var r := Expand(w, list, active);
      && (list in active ==> r == Err(Cycle(active + [list])))
      && (list !in active && list !in w.texts ==> r == Err(Unreadable(list)))
      && (list !in active && list in w.texts ==>
            match LogicalLines(w.texts[list])
            case Unterminated(number) => r == Err(OpenEnded(list, number))
            case Lines(lines) => r == ExpandLines(w, list, active + [list], lines))
  {
    if list !in active && list in w.texts {
      LeftShrinks(w, active, list);
    }
  }

  /** The lines of a list are read in order: what they come to is put together, and the first
      error ends it. */
  lemma {:induction false} LinesAppend(w: World, list: Path, active: seq<Path>, a: seq<Line>, b: seq<Line>)
    ensures var ra, rb := ExpandLines(w, list, active, a), ExpandLines(w, list, active, b);
      var r := ExpandLines(w, list, active, a + b);
      && (ra.Err? ==> r == ra) && (ra.Ok? && rb.Err? ==> r == rb)
      && (ra.Ok? && rb.Ok? ==> r == Ok(ra.value + rb.value))
    decreases |a|
  {
    if a == [] {
      assert a + b == b;
      var rb := ExpandLines(w, list, active, b);
      assert rb.Ok? ==> [] + rb.value == rb.value;
    } else {
      assert (a + b)[1..] == a[1..] + b;
      LinesAppend(w, list, active, a[1..], b);
      if ExpandLines(w, list, active, a).Ok? && ExpandLines(w, list, active, b).Ok? {
        ThenInOrder(ExpandLine(w, list, active, a[0]), ExpandLines(w, list, active, a[1..]),
                    ExpandLines(w, list, active, b));
      }
    }
  }

  lemma ThenInOrder(first: Result<seq<Entry>, Error>, second: Result<seq<Entry>, Error>,
                    third: Result<seq<Entry>, Error>)
    requires first.Ok? && second.Ok? && third.Ok?
    ensures Then(first, Ok(second.value + third.value)) == Ok(Then(first, second).value + third.value)
  {
    assert first.value + (second.value + third.value) == first.value + second.value + third.value;
  }

  lemma OneLineRead(w: World, list: Path, active: seq<Path>, lines: seq<Line>)
    requires |lines| == 1
    ensures ExpandLines(w, list, active, lines) == ExpandLine(w, list, active, lines[0])
  {
    assert lines[1..] == [] && ExpandLines(w, list, active, lines[1..]) == Ok([]);
    var first := ExpandLine(w, list, active, lines[0]);
    if first.Ok? {
      assert first.value + [] == first.value;
    }
  }

  /** An error in reading the lists is the error of the whole, and there is no other. */
  lemma ErrorPassesOn(w: World, root: Path)
    ensures var all, r := Expand(w, root, []), Resolve(w, root);
      (r.Err? <==> all.Err?) && (r.Err? ==> r.error == all.error)
  {
  }

  // The entry is the value of a result that is not an error.
  ghost predicate In(e: Entry, r: Result<seq<Entry>, Error>) {
    r.Ok? && e in r.value
  }

  lemma {:induction false} InLines(w: World, list: Path, active: seq<Path>, lines: seq<Line>, e: Entry)
    requires ExpandLines(w, list, active, lines).Ok?
    ensures In(e, ExpandLines(w, list, active, lines))
       <==> exists line :: line in lines && In(e, ExpandLine(w, list, active, line))
    decreases |lines|
  {
    if lines != [] {
      InLines(w, list, active, lines[1..], e);
      forall line | line in lines && In(e, ExpandLine(w, list, active, line))
        ensures line == lines[0] || line in lines[1..] {
      }
    }
  }

  // The entries of a list are those of its lines.
  lemma InList(w: World, list: Path, active: seq<Path>, e: Entry)
    requires Expand(w, list, active).Ok?
    ensures In(e, Expand(w, list, active))
       <==> exists line :: HasLine(w, list, line) && In(e, ExpandLine(w, list, active + [list], line))
  {
    ListRead(w, list, active);
    InLines(w, list, active + [list], LogicalLines(w.texts[list]).lines, e);
    forall line ensures HasLine(w, list, line) <==> line in LogicalLines(w.texts[list]).lines {
    }
  }

  lemma LineOk(w: World, list: Path, active: seq<Path>, line: Line)
    requires Expand(w, list, active).Ok? && HasLine(w, list, line)
    ensures ExpandLine(w, list, active + [list], line).Ok?
  {
    ListRead(w, list, active);
    LineSucceeds(w, list, active + [list], LogicalLines(w.texts[list]).lines, line);
  }

  /** What a line says of itself: a source, an option, or include directories. */
  ghost predicate Says(w: World, list: Path, text: string, e: Entry) {
    text != "" &&
    match e
    case SourceFile(path) => text[0] != '+' && text[0] != '-' && path == w.join(list, text)
    case Flag(line) =>
      line == text && (text[0] == '+' || text[0] == '-') && text != "-f" && !("-f " <= text) && !("+incdir+" <= text)
    case IncDir(path) => exists names, i {:trigger names[i]} ::
      && text == "+incdir+" + Joined("+", names) && 0 <= i < |names|
      && (forall j :: 0 <= j < |names| ==> '+' !in names[j]) && names[i] != "" && path == w.join(list, names[i])
  }

  lemma {:induction false} NonEmptyMembers(names: seq<string>, name: string)
    ensures name in NonEmpty(names) <==> name in names && name != ""
  {
    if names != [] {
      NonEmptyMembers(names[1..], name);
      assert name in names <==> name == names[0] || name in names[1..];
    }
  }

  // Any text is some names with plus signs between them.
  lemma {:induction false} PlusNames(s: string) returns (names: seq<string>)
    ensures names != [] && s == Joined("+", names) && forall i :: 0 <= i < |names| ==> '+' !in names[i]
    decreases |s|
  {
    if s == "" {
      names := [""];
    } else {
      var rest := PlusNames(s[1..]);
      if s[0] == '+' {
        names := [""] + rest;
        assert names[1..] == rest;
        assert s == "" + "+" + Joined("+", rest);
      } else {
        var first := [s[0]] + rest[0];
        names := [first] + rest[1..];
        assert names[1..] == rest[1..];
      }
    }
  }

  // A line that begins with +incdir+ and is no error.
  lemma IncDirSays(w: World, list: Path, active: seq<Path>, line: Line, names: seq<string>, e: Entry)
    requires names != [] && forall i :: 0 <= i < |names| ==> '+' !in names[i]
    requires line.text == "+incdir+" + Joined("+", names) && ExpandLine(w, list, active, line).Ok?
    ensures In(e, ExpandLine(w, list, active, line)) <==>
            exists i {:trigger names[i]} :: 0 <= i < |names| && names[i] != "" && e == IncDir(w.join(list, names[i]))
  {
    var values, r := NonEmpty(names), ExpandLine(w, list, active, line);
    IncDirNames(w, list, active, line.number, names);
    assert line == Line(line.number, line.text);
    if e in r.value {
      var k :| 0 <= k < |r.value| && r.value[k] == e;
      assert values[k] in values;
      NonEmptyMembers(names, values[k]);
    }
    forall i | 0 <= i < |names| && names[i] != "" && e == IncDir(w.join(list, names[i])) ensures e in r.value {
      NonEmptyMembers(names, names[i]);
      var k :| 0 <= k < |values| && values[k] == names[i];
      assert r.value[k] == e;
    }
  }

  /** A line that is no error and names no list has exactly the entries it says. */
  lemma SaysIff(w: World, list: Path, active: seq<Path>, line: Line, e: Entry)
    requires line.text != "" && !Meaning(line.text).Nested? && ExpandLine(w, list, active, line).Ok?
    ensures In(e, ExpandLine(w, list, active, line)) <==> Says(w, list, line.text, e)
  {
    var text := line.text;
    if "+incdir+" <= text {
      IncDirSaysIff(w, list, active, line, e);
    } else if text[0] == '+' || text[0] == '-' {
      OptionLine(w, list, active, line.number, text);
    } else {
      SourceName(w, list, active, line.number, text);
    }
  }

  lemma IncDirSaysIff(w: World, list: Path, active: seq<Path>, line: Line, e: Entry)
    requires "+incdir+" <= line.text && ExpandLine(w, list, active, line).Ok?
    ensures In(e, ExpandLine(w, list, active, line)) <==> Says(w, list, line.text, e)
  {
    var text := line.text;
    assert text[0] == '+';
    var names := PlusNames(text[8..]);
    assert text == "+incdir+" + Joined("+", names);
    IncDirSays(w, list, active, line, names, e);
    if e.IncDir? && Says(w, list, text, e) {
      var others, i :| text == "+incdir+" + Joined("+", others) && 0 <= i < |others|
        && (forall j :: 0 <= j < |others| ==> '+' !in others[j]) && others[i] != ""
        && e.path == w.join(list, others[i]);
      IncDirSays(w, list, active, line, others, e);
    }
  }

  lemma SaysPlain(w: World, list: Path, text: string, e: Entry)
    requires Says(w, list, text, e)
    ensures !Meaning(text).Nested?
  {
    assert "+incdir+" <= text ==> text[0] == '+';
  }

  // What the last of some lists that name one another holds, the first holds.
  ghost predicate Above(w: World, list: Path, active: seq<Path>, last: Path, inner: seq<Path>, e: Entry) {
    Expand(w, last, inner).Ok? && (In(e, Expand(w, last, inner)) ==> In(e, Expand(w, list, active)))
  }

  lemma AboveTransitive(w: World, list: Path, active: seq<Path>, next: Path, middle: seq<Path>, last: Path,
                        inner: seq<Path>, e: Entry)
    requires Above(w, list, active, next, middle, e) && Above(w, next, middle, last, inner, e)
    ensures Above(w, list, active, last, inner, e)
  {
  }

  // An entry of a list that is read on some line is an entry of the list that reads it.
  lemma StepUp(w: World, list: Path, nested: Path, active: seq<Path>, e: Entry)
    requires Reads(w, list, nested) && Expand(w, list, active).Ok?
    ensures Expand(w, nested, active + [list]).Ok?
    ensures Above(w, list, active, nested, active + [list], e)
  {
    var line, name :| HasLine(w, list, line) && ListLine(line.text, name) && nested == w.join(list, name)
      && (nested in w.texts || nested in w.dirs);
    var pad :| Blank(pad) && line.text == "-f " + pad + name;
    NestedLine(w, list, active + [list], line.number, pad, name);
    assert line == Line(line.number, line.text);
    LineOk(w, list, active, line);
    InList(w, list, active, e);
  }

  lemma ReadingRest(w: World, chain: seq<Path>, rest: seq<Path>)
    requires Reading(w, chain) && |chain| > 1 && rest == chain[1..]
    ensures Reading(w, rest)
  {
    forall i | 0 < i < |rest| ensures Reads(w, rest[i - 1], rest[i]) {
      assert Reads(w, chain[i], chain[i + 1]);
    }
  }

  // Along a chain of lists that name one another, entries come up to the first.
  lemma {:induction false} ComesUp(w: World, chain: seq<Path>, active: seq<Path>, inner: seq<Path>, e: Entry)
    requires chain != [] && Reading(w, chain) && Expand(w, chain[0], active).Ok?
    requires inner == active + chain[..|chain| - 1]
    ensures Above(w, chain[0], active, chain[|chain| - 1], inner, e)
    decreases |chain|
  {
    if |chain| == 1 {
      assert inner == active;
    } else {
      var rest, middle := chain[1..], active + [chain[0]];
      StepUp(w, chain[0], chain[1], active, e);
      ReadingRest(w, chain, rest);
      assert middle + rest[..|rest| - 1] == inner;
      ComesUp(w, rest, middle, inner, e);
      AboveTransitive(w, chain[0], active, chain[1], middle, chain[|chain| - 1], inner, e);
    }
  }

  // The entry is in the expansion of a list that is named on some line, or said by some line.
  lemma StepDown(w: World, list: Path, active: seq<Path>, e: Entry) returns (line: Line, nested: Path)
    requires In(e, Expand(w, list, active))
    ensures list in w.texts && list !in active && HasLine(w, list, line)
    ensures Says(w, list, line.text, e)
         || (Reads(w, list, nested) && In(e, Expand(w, nested, active + [list])))
  {
    ListRead(w, list, active);
    InList(w, list, active, e);
    line :| HasLine(w, list, line) && In(e, ExpandLine(w, list, active + [list], line));
    LinesEnded(w, list, line);
    nested := list;
    if Meaning(line.text).Nested? {
      nested := w.join(list, Meaning(line.text).value);
      assert Names(w, list, line, nested);
      EdgeIff(w, list, nested);
    } else {
      SaysIff(w, list, active + [list], line, e);
    }
  }

  // Where an entry comes from.
  lemma {:induction false} ComesFrom(w: World, list: Path, active: seq<Path>, e: Entry)
    returns (chain: seq<Path>, line: Line)
    requires In(e, Expand(w, list, active))
    ensures chain != [] && chain[0] == list && Reading(w, chain)
    ensures HasLine(w, chain[|chain| - 1], line) && Says(w, chain[|chain| - 1], line.text, e)
    decreases |Left(w, active)|
  {
    var nested;
    line, nested := StepDown(w, list, active, e);
    chain := [list];
    if !Says(w, list, line.text, e) {
      LeftShrinks(w, active, list);
      var more;
      more, line := ComesFrom(w, nested, active + [list], e);
      chain := [list] + more;
      forall i | 0 < i < |chain| ensures Reads(w, chain[i - 1], chain[i]) {
        assert i > 1 ==> Reads(w, more[i - 2], more[i - 1]);
      }
    }
  }

  // A list that is reached from the root says so.
  ghost predicate Stated(w: World, root: Path, e: Entry) {
    exists chain, line {:trigger Reading(w, chain), line.text} ::
      && chain != [] && chain[0] == root && Reading(w, chain)
      && HasLine(w, chain[|chain| - 1], line) && Says(w, chain[|chain| - 1], line.text, e)
  }

  // Some line of the source includes, by a literal name, a file beside it.
  ghost predicate IncludesBeside(w: World, source: Path) {
    source in w.texts && exists line, pad, gap, name, rest ::
      && line in RawLines(w.texts[source]) && Directive(line, pad, gap, name, rest)
      && w.join(source, name) in w.texts
  }

  // The directory of a stated source that includes a file beside it.
  ghost predicate Needed(w: World, root: Path, e: Entry) {
    e.IncDir? && exists p :: Stated(w, root, SourceFile(p)) && IncludesBeside(w, p) && w.parent(p) == e.path
  }

  lemma BesideIff(w: World, source: Path)
    ensures IncludesBeside(w, source) <==> HasLocalInclude(w, source)
  {
    if HasLocalInclude(w, source) {
      var line :| line in RawLines(w.texts[source]) && IncludesLocal(w, source, line);
      IncludeIff(line, IncludeName(line).value);
    }
    if IncludesBeside(w, source) {
      var line, pad, gap, name, rest :| line in RawLines(w.texts[source]) && Directive(line, pad, gap, name, rest)
        && w.join(source, name) in w.texts;
      IncludeIff(line, name);
      assert IncludesLocal(w, source, line);
    }
  }

  lemma StatedIff(w: World, root: Path, e: Entry)
    requires Expand(w, root, []).Ok?
    ensures Stated(w, root, e) <==> In(e, Expand(w, root, []))
  {
    if In(e, Expand(w, root, [])) {
      var chain, line := ComesFrom(w, root, [], e);
      assert Reading(w, chain) && line.text == line.text;
    }
    if Stated(w, root, e) {
      var chain, line: Line :| chain != [] && chain[0] == root && Reading(w, chain)
        && HasLine(w, chain[|chain| - 1], line) && Says(w, chain[|chain| - 1], line.text, e);
      var last, before := chain[|chain| - 1], [] + chain[..|chain| - 1];
      ComesUp(w, chain, [], before, e);
      LineOk(w, last, before, line);
      SaysPlain(w, last, line.text, e);
      SaysIff(w, last, before + [last], line, e);
      InList(w, last, before, e);
    }
  }

  /** A resolved list holds exactly what the lines of the lists reached from the root say, and
      the directories of the sources that include a file beside them. */
  lemma EntriesExactly(w: World, root: Path, e: Entry)
    requires Resolve(w, root).Ok?
    ensures e in Resolve(w, root).value <==> Stated(w, root, e) || Needed(w, root, e)
  {
    var all := Expand(w, root, []).value;
    var explicit := Collect([], all);
    StatedIff(w, root, e);
    CollectMembers([], all, e);
    WithImplicitMembers(w, explicit, e);
    if e.IncDir? && e.path in LocalDirs(w, explicit) {
      LocalDirsOrigin(w, explicit, e.path);
      var p :| SourceFile(p) in explicit && HasLocalInclude(w, p) && w.parent(p) == e.path;
      CollectMembers([], all, SourceFile(p));
      StatedIff(w, root, SourceFile(p));
      BesideIff(w, p);
    }
    if Needed(w, root, e) {
      var p :| Stated(w, root, SourceFile(p)) && IncludesBeside(w, p) && w.parent(p) == e.path;
      StatedIff(w, root, SourceFile(p));
      CollectMembers([], all, SourceFile(p));
      BesideIff(w, p);
      LocalDirsMembers(w, explicit, p);
    }
  }

  // The source at i needs the directory d for what it includes.
  ghost predicate Needs(w: World, entries: seq<Entry>, i: int, d: Path) {
    && 0 <= i < |entries| && entries[i].SourceFile? && HasLocalInclude(w, entries[i].path)
    && w.parent(entries[i].path) == d
  }

  // A source needs the directory a before any needs b.
  ghost predicate NeedsFirst(w: World, entries: seq<Entry>, a: Path, b: Path) {
    exists i :: Needs(w, entries, i, a) && forall j :: 0 <= j <= i ==> !Needs(w, entries, j, b)
  }

  // What is inserted for the first m entries.
  ghost function Inserted(w: World, entries: seq<Entry>, m: nat): seq<Entry>
    requires m <= |entries|
  {
    Collect([], Unlisted(LocalDirs(w, entries[..m]), entries))
  }

  lemma UnlistedAppend(dirs: seq<Path>, d: Path, entries: seq<Entry>)
    ensures Unlisted(dirs + [d], entries)
         == Unlisted(dirs, entries) + (if IncDir(d) in entries then [] else [IncDir(d)])
  {
    assert (dirs + [d])[..|dirs|] == dirs;
  }

  lemma InsertedStep(w: World, entries: seq<Entry>, m: nat)
    requires 0 < m <= |entries|
    ensures var last, before := entries[m - 1], Inserted(w, entries, m - 1);
      Inserted(w, entries, m) ==
      if last.SourceFile? && HasLocalInclude(w, last.path) && IncDir(w.parent(last.path)) !in entries + before
      then before + [IncDir(w.parent(last.path))] else before
  {
    var last := entries[m - 1];
    var dirs := LocalDirs(w, entries[..m - 1]);
    assert entries[..m][..m - 1] == entries[..m - 1];
    if last.SourceFile? && HasLocalInclude(w, last.path) {
      var d := w.parent(last.path);
      UnlistedAppend(dirs, d, entries);
      CollectTwice([], Unlisted(dirs, entries), if IncDir(d) in entries then [] else [IncDir(d)]);
      assert [IncDir(d)][1..] == [];
    } else {
      assert dirs + [] == dirs;
    }
  }

  ghost predicate Ordered(w: World, entries: seq<Entry>, m: nat)
    requires m <= |entries|
  {
    && (forall d :: IncDir(d) in Inserted(w, entries, m) <==>
          IncDir(d) !in entries && exists i :: i < m && Needs(w, entries, i, d))
    && (forall e :: e in Inserted(w, entries, m) ==> e.IncDir?)
    && forall i, j :: 0 <= i < j < |Inserted(w, entries, m)| ==>
         NeedsFirst(w, entries, Inserted(w, entries, m)[i].path, Inserted(w, entries, m)[j].path)
  }

  lemma {:induction false} InsertedOrdered(w: World, entries: seq<Entry>, m: nat)
    requires m <= |entries|
    ensures Ordered(w, entries, m)
  {
    if m == 0 {
      assert entries[..0] == [] && Inserted(w, entries, m) == [];
    } else {
      InsertedOrdered(w, entries, m - 1);
      InsertedStep(w, entries, m);
      OrderedMore(w, entries, m, Inserted(w, entries, m - 1), Inserted(w, entries, m));
    }
  }

  lemma OrderedMore(w: World, entries: seq<Entry>, m: nat, before: seq<Entry>, after: seq<Entry>)
    requires 0 < m <= |entries| && before == Inserted(w, entries, m - 1) && after == Inserted(w, entries, m)
    requires Ordered(w, entries, m - 1)
    requires after ==
      (if entries[m - 1].SourceFile? && HasLocalInclude(w, entries[m - 1].path)
          && IncDir(w.parent(entries[m - 1].path)) !in entries + before
       then before + [IncDir(w.parent(entries[m - 1].path))] else before)
    ensures Ordered(w, entries, m)
  {
    var last := entries[m - 1];
    forall d ensures IncDir(d) in after <==> IncDir(d) !in entries && exists i :: i < m && Needs(w, entries, i, d) {
      assert Needs(w, entries, m - 1, d) ==> d == w.parent(last.path);
    }
    forall i, j | 0 <= i < j < |after| ensures NeedsFirst(w, entries, after[i].path, after[j].path) {
      if j < |before| {
        assert NeedsFirst(w, entries, before[i].path, before[j].path);
      } else {
        assert before[i] in before && before[i] == IncDir(before[i].path);
        var k :| k < m - 1 && Needs(w, entries, k, before[i].path);
        assert IncDir(after[j].path) !in before && IncDir(after[j].path) !in entries;
      }
    }
  }

  /** The inserted directories stand before the first entry that is no include directory, and
      in the order in which the sources first need them. */
  lemma ImplicitOrder(w: World, entries: seq<Entry>)
    ensures exists k, extra: seq<Entry> ::
      && 0 <= k <= |entries| && WithImplicit(w, entries) == entries[..k] + extra + entries[k..]
      && (forall i :: 0 <= i < k ==> entries[i].IncDir?) && (k < |entries| ==> !entries[k].IncDir?)
      && (forall e :: e in extra ==> e.IncDir? && e !in entries)
      && forall i, j :: 0 <= i < j < |extra| ==> NeedsFirst(w, entries, extra[i].path, extra[j].path)
  {
    var k, extra := FirstOther(entries), Inserted(w, entries, |entries|);
    assert entries[..|entries|] == entries;
    InsertedOrdered(w, entries, |entries|);
    FirstOtherIs(entries);
    assert WithImplicit(w, entries) == entries[..k] + extra + entries[k..];
  }

  lemma {:induction false} FirstOtherIs(entries: seq<Entry>)
    ensures forall i :: 0 <= i < FirstOther(entries) ==> entries[i].IncDir?
    ensures FirstOther(entries) < |entries| ==> !entries[FirstOther(entries)].IncDir?
  {
    if entries != [] && entries[0].IncDir? {
      FirstOtherIs(entries[1..]);
      forall i | 0 < i < FirstOther(entries) ensures entries[i].IncDir? {
        assert entries[i] == entries[1..][i - 1];
      }
    }
  }
}
