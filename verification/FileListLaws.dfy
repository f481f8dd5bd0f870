/** What the file-list resolver promises of cycles: they are reported exactly when there
    are any, by a chain of lists that is one. */
module FileListLaws {
  import opened Prelude
  import opened FileLines
  import opened FileList
  import opened FileListResolve

  ghost predicate HasLine(w: World, list: Path, line: Line) {
    && list in w.texts && LogicalLines(w.texts[list]).Lines? && line in LogicalLines(w.texts[list]).lines
  }

  // The list names another list on this line.
  ghost predicate Names(w: World, list: Path, line: Line, nested: Path) {
    var meaning := Meaning(line.text);
    && meaning.Nested? && meaning.value != "" && nested == w.join(list, meaning.value) && Exists(w, nested)
  }

  ghost predicate Edge(w: World, list: Path, nested: Path) {
    exists line :: HasLine(w, list, line) && Names(w, list, line, nested)
  }

  // Each list of the chain names the next.
  ghost predicate Chain(w: World, chain: seq<Path>) {
    forall i :: 0 < i < |chain| ==> Edge(w, chain[i - 1], chain[i])
  }

  // The chain ends in a list it has been through.
  ghost predicate Returns(chain: seq<Path>) {
    chain != [] && chain[|chain| - 1] in chain[..|chain| - 1]
  }

  ghost predicate Looping(w: World, root: Path, chain: seq<Path>) {
    chain != [] && chain[0] == root && Chain(w, chain) && Returns(chain)
  }

  // A cycle error carries such a chain, which continues the lists being read.
  ghost predicate Genuine(w: World, active: seq<Path>, r: Result<seq<Entry>, Error>) {
    r.Err? && r.error.Cycle? ==> active <= r.error.lists && Chain(w, r.error.lists) && Returns(r.error.lists)
  }

  lemma {:induction false} CycleGenuine(w: World, list: Path, active: seq<Path>)
    requires Chain(w, active + [list])
    ensures Genuine(w, active + [list], Expand(w, list, active))
    decreases |Left(w, active)|, 0
  {
    if list in active {
      assert (active + [list])[..|active|] == active;
    } else if list in w.texts && LogicalLines(w.texts[list]).Lines? {
      LeftShrinks(w, active, list);
      CycleGenuineLines(w, list, active + [list], LogicalLines(w.texts[list]).lines);
    }
  }

  lemma {:induction false} CycleGenuineLines(w: World, list: Path, active: seq<Path>, lines: seq<Line>)
    requires Chain(w, active) && active != [] && active[|active| - 1] == list
    requires forall line :: line in lines ==> HasLine(w, list, line)
    ensures Genuine(w, active, ExpandLines(w, list, active, lines))
    decreases |Left(w, active)|, |lines| + 1
  {
    if lines != [] {
      CycleGenuineLine(w, list, active, lines[0]);
      CycleGenuineLines(w, list, active, lines[1..]);
    }
  }

  lemma DirectoriesNoCycle(w: World, list: Path, number: int, values: seq<string>)
    ensures var r := DirectoryEntries(w, list, number, values); r.Err? ==> !r.error.Cycle?
  {
  }

  lemma {:induction false} CycleGenuineLine(w: World, list: Path, active: seq<Path>, line: Line)
    requires Chain(w, active) && active != [] && active[|active| - 1] == list && HasLine(w, list, line)
    ensures Genuine(w, active, ExpandLine(w, list, active, line))
    decreases |Left(w, active)|, 1
  {
    match Meaning(line.text)
    case Nested(value) =>
      var nested := w.join(list, value);
      if value != "" && Exists(w, nested) {
        assert Names(w, list, line, nested);
        CycleGenuine(w, nested, active);
      }
    case Directories(values) =>
      DirectoriesNoCycle(w, list, line.number, values);
    case _ =>
  }

  lemma {:induction false} LineSucceeds(w: World, list: Path, active: seq<Path>, lines: seq<Line>, line: Line)
    requires ExpandLines(w, list, active, lines).Ok? && line in lines
    ensures ExpandLine(w, list, active, line).Ok?
    decreases |lines|
  {
    if line != lines[0] {
      LineSucceeds(w, list, active, lines[1..], line);
    }
  }

  /** When a list can be expanded, no chain from it meets the lists being read or itself. */
  lemma {:induction false} ExpandedAcyclic(w: World, list: Path, active: seq<Path>, chain: seq<Path>)
    requires Expand(w, list, active).Ok?
    requires chain != [] && chain[0] == list && Chain(w, chain)
    ensures Distinct(chain) && forall i :: 0 <= i < |chain| ==> chain[i] !in active
    decreases |chain|
  {
    if |chain| > 1 {
      var rest := chain[1..];
      assert Edge(w, chain[0], chain[1]);
      var line :| HasLine(w, list, line) && Names(w, list, line, chain[1]);
      LeftShrinks(w, active, list);
      LineSucceeds(w, list, active + [list], LogicalLines(w.texts[list]).lines, line);
      forall i | 0 < i < |rest| ensures Edge(w, rest[i - 1], rest[i]) {
        assert Edge(w, chain[i], chain[i + 1]);
      }
      ExpandedAcyclic(w, chain[1], active + [list], rest);
      forall i, j | 0 <= i < j < |chain| ensures chain[i] != chain[j] {
        assert chain[j] == rest[j - 1] && rest[j - 1] !in active + [list];
        assert i > 0 ==> chain[i] == rest[i - 1];
      }
      forall i | 0 <= i < |chain| ensures chain[i] !in active {
        assert i > 0 ==> chain[i] == rest[i - 1] && rest[i - 1] !in active + [list];
      }
    }
  }

  /** A cycle error means that a chain of -f lines from the root returns to a list it has
      been through, and the error names that chain; and if there is any such chain, the
      list is not resolved. So where no other error arises, a cycle is reported exactly
      when there is one. */
  lemma CycleReportedIff(w: World, root: Path)
    ensures var r := Resolve(w, root);
      && (r.Err? && r.error.Cycle? ==> Looping(w, root, r.error.lists))
      && ((exists chain :: Looping(w, root, chain)) ==> r.Err?)
      && (r.Ok? || r.error.Cycle? ==> (r.Err? <==> exists chain :: Looping(w, root, chain)))
  {
    CycleGenuine(w, root, []);
    var r := Resolve(w, root);
    if r.Err? && r.error.Cycle? {
      assert [] + [root] <= r.error.lists;
      assert Looping(w, root, r.error.lists);
    }
    if r.Ok? {
      forall chain ensures !Looping(w, root, chain) {
        if chain != [] && chain[0] == root && Chain(w, chain) {
          ExpandedAcyclic(w, root, [], chain);
          DistinctNoReturn(chain);
        }
      }
    }
  }

  lemma DistinctNoReturn(chain: seq<Path>)
    requires Distinct(chain)
    ensures !Returns(chain)
  {
  }
}
