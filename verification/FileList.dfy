/** Resolving nested file lists: the full depth-first expansion, its de-duplication, and
    the resolver that computes both at once. */
module FileList {
  import opened Prelude
  import opened FileLines

  type Path = string

  /** The file system: every text file, the directories, the directory of a
      path, and what a name written in a file resolves to. */
  datatype World = World(texts: map<Path, string>, dirs: set<Path>,
                         parent: Path -> Path, join: (Path, string) -> Path)

  predicate Exists(w: World, path: Path) {
    path in w.texts || path in w.dirs
  }

  datatype Entry = IncDir(path: Path) | SourceFile(path: Path) | Flag(line: string)

  datatype Error =
    | Cycle(lists: seq<Path>)
    | Unreadable(list: Path)
    | OpenEnded(list: Path, number: int)
    | NoListName(list: Path, number: int)
    | NoDirectoryName(list: Path, number: int)
    | Missing(list: Path, number: int, value: string)
    | NotDirectory(list: Path, number: int, value: string)
    | IsDirectory(list: Path, number: int, value: string)

  // Two results in a row; the first error wins.
  function Then(first: Result<seq<Entry>, Error>, second: Result<seq<Entry>, Error>): Result<seq<Entry>, Error> {
    if first.Err? then first else if second.Err? then second else Ok(first.value + second.value)
  }

  function DirectoryEntry(w: World, list: Path, number: int, value: string): Result<seq<Entry>, Error> {
    var path := w.join(list, value);
    if !Exists(w, path) then Err(Missing(list, number, value))
    else if path !in w.dirs then Err(NotDirectory(list, number, value))
    else Ok([IncDir(path)])
  }

  function DirectoryEntries(w: World, list: Path, number: int, values: seq<string>): Result<seq<Entry>, Error> {
    if values == [] then Ok([])
    else Then(DirectoryEntry(w, list, number, values[0]), DirectoryEntries(w, list, number, values[1..]))
  }

  function SourceEntry(w: World, list: Path, number: int, value: string): Result<seq<Entry>, Error> {
    var path := w.join(list, value);
    if !Exists(w, path) then Err(Missing(list, number, value))
    else if path in w.dirs then Err(IsDirectory(list, number, value))
    else Ok([SourceFile(path)])
  }

  function Elements(list: seq<Path>): set<Path> {
    set p | p in list
  }

  // The lists that could still be entered.
  function Left(w: World, active: seq<Path>): set<Path> {
    w.texts.Keys - Elements(active)
  }

  lemma LeftShrinks(w: World, active: seq<Path>, list: Path)
    requires list in w.texts && list !in active
    ensures |Left(w, active + [list])| < |Left(w, active)|
  {
    assert Left(w, active + [list]) == Left(w, active) - {list};
  }

  /** Everything a list stands for, in depth-first order and with all repetitions. */
  function Expand(w: World, list: Path, active: seq<Path>): Result<seq<Entry>, Error>
    decreases |Left(w, active)|, 0
  {
    if list in active then Err(Cycle(active + [list]))
    else if list !in w.texts then Err(Unreadable(list))
    else
      LeftShrinks(w, active, list);
      match LogicalLines(w.texts[list])
      case Unterminated(number) => Err(OpenEnded(list, number))
      case Lines(lines) => ExpandLines(w, list, active + [list], lines)
  }

  function ExpandLines(w: World, list: Path, active: seq<Path>, lines: seq<Line>): Result<seq<Entry>, Error>
    decreases |Left(w, active)|, |lines| + 1
  {
    if lines == [] then Ok([])
    else Then(ExpandLine(w, list, active, lines[0]), ExpandLines(w, list, active, lines[1..]))
  }

  function ExpandLine(w: World, list: Path, active: seq<Path>, line: Line): Result<seq<Entry>, Error>
    decreases |Left(w, active)|, 1
  {
    match Meaning(line.text)
    case Nested(value) =>
      if value == "" then Err(NoListName(list, line.number))
      else
        var path := w.join(list, value);
        if !Exists(w, path) then Err(Missing(list, line.number, value)) else Expand(w, path, active)
    case Directories(values) =>
      if values == [] then Err(NoDirectoryName(list, line.number))
      else DirectoryEntries(w, list, line.number, values)
    case Option(text) => Ok([Flag(text)])
    case Source(value) => SourceEntry(w, list, line.number, value)
  }

  // The entries followed by those of `more` that are not there yet.
  function Collect(entries: seq<Entry>, more: seq<Entry>): seq<Entry>
    decreases |more|
  {
    if more == [] then entries
    else Collect(if more[0] in entries then entries else entries + [more[0]], more[1..])
  }

  lemma {:induction false} CollectTwice(entries: seq<Entry>, first: seq<Entry>, second: seq<Entry>)
    ensures Collect(Collect(entries, first), second) == Collect(entries, first + second)
    decreases |first|
  {
    if first == [] {
      assert first + second == second;
    } else {
      assert (first + second)[1..] == first[1..] + second;
      CollectTwice(if first[0] in entries then entries else entries + [first[0]], first[1..], second);
    }
  }

  // What a step of the resolver leaves: the collected entries, or the error.
  function After(entries: seq<Entry>, r: Result<seq<Entry>, Error>): Result<seq<Entry>, Error> {
    if r.Ok? then Ok(Collect(entries, r.value)) else r
  }

  lemma AfterThen(entries: seq<Entry>, first: Result<seq<Entry>, Error>, second: Result<seq<Entry>, Error>)
    ensures After(entries, Then(first, second))
         == if first.Err? then first else After(After(entries, first).value, second)
  {
    if first.Ok? && second.Ok? {
      CollectTwice(entries, first.value, second.value);
    }
  }

  /** The resolver's state: the ordered entries, one set of seen values for each kind, and
      the lists being read. */
  class Resolver {
    const world: World
    var entries: seq<Entry>
    var seenSources: set<Path>
    var seenDirs: set<Path>
    var seenFlags: set<string>
    var active: seq<Path>

    ghost predicate Valid()
      reads this
    {
      && (forall p :: p in seenSources <==> SourceFile(p) in entries)
      && (forall p :: p in seenDirs <==> IncDir(p) in entries)
      && (forall f :: f in seenFlags <==> Flag(f) in entries)
    }

    // What the fields show after a step that had a given outcome.
    ghost predicate Shows(before: seq<Entry>, r: Result<seq<Entry>, Error>, error: Option<Error>)
      reads this
    {
      if r.Ok? then error == None && entries == Collect(before, r.value) else error == Some(r.error)
    }

    constructor (world: World)
      ensures this.world == world && entries == [] && active == [] && Valid()
    {
      this.world := world;
      entries, seenSources, seenDirs, seenFlags, active := [], {}, {}, {}, [];
    }

    // Adds an entry unless its value has been seen.
    method Add(entry: Entry)
      requires Valid()
      modifies this
      ensures Valid() && active == old(active)
      ensures entries == Collect(old(entries), [entry])
    {
      match entry {
        case IncDir(path) =>
          if path !in seenDirs {
            seenDirs, entries := seenDirs + {path}, entries + [entry];
          }
        case SourceFile(path) =>
          if path !in seenSources {
            seenSources, entries := seenSources + {path}, entries + [entry];
          }
        case Flag(line) =>
          if line !in seenFlags {
            seenFlags, entries := seenFlags + {line}, entries + [entry];
          }
      }
    }

    /** Reads a list. The entries grow by what is new in its expansion, or the expansion's
        error is reported; either way the active lists are as before. */
    method Visit(list: Path) returns (error: Option<Error>)
      requires Valid()
      modifies this
      ensures Valid() && active == old(active)
      ensures Shows(old(entries), Expand(world, list, old(active)), error)
      decreases |Left(world, active)|, 0
    {
      if list in active {
        return Some(Cycle(active + [list]));
      }
      if list !in world.texts {
        return Some(Unreadable(list));
      }
      LeftShrinks(world, active, list);
      var logical := IterLines(world.texts[list]);
      match logical {
        case Unterminated(number) => return Some(OpenEnded(list, number));
        case Lines(lines) =>
          ghost var before := active;
          active := active + [list];
          error := VisitLines(list, lines);
          active := active[..|active| - 1];
          assert active == before;
      }
    }

    method VisitLines(list: Path, lines: seq<Line>) returns (error: Option<Error>)
      requires Valid()
      modifies this
      ensures Valid() && active == old(active)
      ensures Shows(old(entries), ExpandLines(world, list, old(active), lines), error)
      decreases |Left(world, active)|, |lines| + 1, 1
    {
      error := None;
      ghost var total := ExpandLines(world, list, active, lines);
      assert lines[0..] == lines;
      for k := 0 to |lines|
        invariant Valid() && active == old(active) && error == None
        invariant After(entries, ExpandLines(world, list, active, lines[k..])) == After(old(entries), total)
      {
        var line := lines[k];
        assert lines[k..][0] == line && lines[k..][1..] == lines[k + 1..];
        AfterThen(entries, ExpandLine(world, list, active, line), ExpandLines(world, list, active, lines[k + 1..]));
        error := VisitLine(list, line);
        if error.Some? {
          return;
        }
      }
      assert lines[|lines|..] == [];
    }

    method VisitLine(list: Path, line: Line) returns (error: Option<Error>)
      requires Valid()
      modifies this
      ensures Valid() && active == old(active)
      ensures Shows(old(entries), ExpandLine(world, list, old(active), line), error)
      decreases |Left(world, active)|, 1
    {
      error := None;
      match Meaning(line.text) {
        case Nested(value) =>
          if value == "" {
            return Some(NoListName(list, line.number));
          }
          var path := world.join(list, value);
          if !Exists(world, path) {
            return Some(Missing(list, line.number, value));
          }
          error := Visit(path);
        case Directories(values) =>
          if values == [] {
            return Some(NoDirectoryName(list, line.number));
          }
          error := AddDirectories(list, line.number, values);
        case Option(text) =>
          Add(Flag(text));
        case Source(value) =>
          var path := world.join(list, value);
          if !Exists(world, path) {
            return Some(Missing(list, line.number, value));
          }
          if path in world.dirs {
            return Some(IsDirectory(list, line.number, value));
          }
          Add(SourceFile(path));
      }
    }

    method AddDirectories(list: Path, number: int, values: seq<string>) returns (error: Option<Error>)
      requires Valid()
      modifies this
      ensures Valid() && active == old(active)
      ensures Shows(old(entries), DirectoryEntries(world, list, number, values), error)
    {
      error := None;
      ghost var total := DirectoryEntries(world, list, number, values);
      assert values[0..] == values;
      for k := 0 to |values|
        invariant Valid() && active == old(active)
        invariant After(entries, DirectoryEntries(world, list, number, values[k..])) == After(old(entries), total)
      {
        assert values[k..][1..] == values[k + 1..];
        AfterThen(entries, DirectoryEntry(world, list, number, values[k]),
                  DirectoryEntries(world, list, number, values[k + 1..]));
        var path := world.join(list, values[k]);
        if !Exists(world, path) {
          return Some(Missing(list, number, values[k]));
        }
        if path !in world.dirs {
          return Some(NotDirectory(list, number, values[k]));
        }
        Add(IncDir(path));
      }
    }
  }
}
