/** Implicit include directories, the whole resolver, and the order of what it returns. */
module FileListResolve {
  import opened Prelude
  import opened FileText
  import opened FileLines
  import opened FileList

  // The line includes, by a literal name, a file that exists beside the source.
  predicate IncludesLocal(w: World, source: Path, line: string) {
    var name := IncludeName(line);
    name.Some? && w.join(source, name.value) in w.texts
  }

  predicate HasLocalInclude(w: World, source: Path) {
    source in w.texts && exists line :: line in RawLines(w.texts[source]) && IncludesLocal(w, source, line)
  }

  // The directories of the sources that need one, in order.
  function LocalDirs(w: World, entries: seq<Entry>): seq<Path> {
    if entries == [] then []
    else
      var last := entries[|entries| - 1];
      LocalDirs(w, entries[..|entries| - 1]) +
      if last.SourceFile? && HasLocalInclude(w, last.path) then [w.parent(last.path)] else []
  }

  // Those of the directories that are not listed, as entries.
  function Unlisted(dirs: seq<Path>, entries: seq<Entry>): seq<Entry> {
    if dirs == [] then []
    else
      var last := IncDir(dirs[|dirs| - 1]);
      Unlisted(dirs[..|dirs| - 1], entries) + if last in entries then [] else [last]
  }

  function FirstOther(entries: seq<Entry>): (k: nat)
    ensures k <= |entries|
  {
    if entries != [] && entries[0].IncDir? then 1 + FirstOther(entries[1..]) else 0
  }

  function WithImplicit(w: World, entries: seq<Entry>): seq<Entry> {
    var k := FirstOther(entries);
    entries[..k] + Collect([], Unlisted(LocalDirs(w, entries), entries)) + entries[k..]
  }

  function Resolve(w: World, root: Path): Result<seq<Entry>, Error> {
    var r := After([], Expand(w, root, []));
    if r.Ok? then Ok(WithImplicit(w, r.value)) else r
  }

  method SourceLocalIncludeDirs(w: World, entries: seq<Entry>) returns (dirs: seq<Path>)
    ensures dirs == LocalDirs(w, entries)
  {
    dirs := [];
    for i := 0 to |entries|
      invariant dirs == LocalDirs(w, entries[..i])
    {
      assert entries[..i + 1][..i] == entries[..i];
      if entries[i].SourceFile? {
        var needed := FindLocalInclude(w, entries[i].path);
        if needed {
          dirs := dirs + [w.parent(entries[i].path)];
        }
      }
    }
    assert entries[..|entries|] == entries;
  }

  method FindLocalInclude(w: World, source: Path) returns (found: bool)
    ensures found == HasLocalInclude(w, source)
  {
    if source !in w.texts {
      return false;
    }
    var lines := RawLines(w.texts[source]);
    for k := 0 to |lines|
      invariant forall j :: 0 <= j < k ==> !IncludesLocal(w, source, lines[j])
    {
      if IncludesLocal(w, source, lines[k]) {
        return true;
      }
    }
    found := false;
  }

  method FilterUnlisted(dirs: seq<Path>, entries: seq<Entry>) returns (missing: seq<Entry>)
    ensures missing == Unlisted(dirs, entries)
  {
    missing := [];
    for i := 0 to |dirs|
      invariant missing == Unlisted(dirs[..i], entries)
    {
      assert dirs[..i + 1][..i] == dirs[..i];
      if IncDir(dirs[i]) !in entries {
        missing := missing + [IncDir(dirs[i])];
      }
    }
    assert dirs[..|dirs|] == dirs;
  }

  // Puts the missing directories, each once, before the first entry of another kind.
  method InsertMissing(entries: seq<Entry>, missing: seq<Entry>) returns (all: seq<Entry>)
    ensures var k := FirstOther(entries); all == entries[..k] + Collect([], missing) + entries[k..]
  {
    all := entries;
    if missing != [] {
      var k := FirstOther(entries);
      all := entries[..k] + Collect([], missing) + entries[k..];
    }
  }

  /** The whole resolver. */
  method ResolveFilelist(w: World, root: Path) returns (r: Result<seq<Entry>, Error>)
    ensures r == Resolve(w, root)
  {
    var resolver := new Resolver(w);
    var error := resolver.Visit(root);
    if error.Some? {
      return Err(error.value);
    }
    var entries := resolver.entries;
    var dirs := SourceLocalIncludeDirs(w, entries);
    var missing := FilterUnlisted(dirs, entries);
    entries := InsertMissing(entries, missing);
    r := Ok(entries);
  }

  ghost predicate Distinct<T(!new)>(s: seq<T>) {
    forall i, j :: 0 <= i < j < |s| ==> s[i] != s[j]
  }

  // Where an element first occurs.
  function FirstIndex(s: seq<Entry>, e: Entry): (k: nat)
    requires e in s
    ensures k < |s| && s[k] == e && e !in s[..k]
  {
    if s[0] == e then 0 else 1 + FirstIndex(s[1..], e)
  }

  lemma {:induction false} CollectMembers(entries: seq<Entry>, more: seq<Entry>, e: Entry)
    ensures e in Collect(entries, more) <==> e in entries || e in more
    decreases |more|
  {
    if more != [] {
      CollectMembers(if more[0] in entries then entries else entries + [more[0]], more[1..], e);
      assert e in more <==> e == more[0] || e in more[1..];
    }
  }

  lemma {:induction false} CollectDistinct(entries: seq<Entry>, more: seq<Entry>)
    requires Distinct(entries)
    ensures Distinct(Collect(entries, more)) && entries <= Collect(entries, more)
    decreases |more|
  {
    if more != [] {
      CollectDistinct(if more[0] in entries then entries else entries + [more[0]], more[1..]);
    }
  }

  // What was collected beyond the entries comes from `more` and is new.
  lemma CollectedNew(entries: seq<Entry>, more: seq<Entry>, j: int)
    requires Distinct(entries) && |entries| <= j < |Collect(entries, more)|
    ensures Collect(entries, more)[j] in more && Collect(entries, more)[j] !in entries
  {
    var r := Collect(entries, more);
    CollectDistinct(entries, more);
    CollectMembers(entries, more, r[j]);
    forall i | 0 <= i < |entries| ensures entries[i] != r[j] {
      assert entries[i] == r[i];
    }
  }

  lemma LaterIndex(s: seq<Entry>, e: Entry)
    requires e in s && e != s[0]
    ensures e in s[1..] && FirstIndex(s, e) == 1 + FirstIndex(s[1..], e)
  {
  }

  /** The collected entries are the first occurrences, in their order. */
  lemma {:induction false} CollectOrder(entries: seq<Entry>, more: seq<Entry>, i: int, j: int)
    requires Distinct(entries) && |entries| <= i < j < |Collect(entries, more)|
    ensures var r := Collect(entries, more);
      r[i] in more && r[j] in more && FirstIndex(more, r[i]) < FirstIndex(more, r[j])
    decreases |more|
  {
    var next := if more[0] in entries then entries else entries + [more[0]];
    var r := Collect(next, more[1..]);
    CollectedNew(entries, more, i);
    CollectedNew(entries, more, j);
    CollectedNew(next, more[1..], j);
    LaterIndex(more, r[j]);
    if i >= |next| {
      CollectedNew(next, more[1..], i);
      LaterIndex(more, r[i]);
      CollectOrder(next, more[1..], i, j);
    } else {
      CollectDistinct(next, more[1..]);
      assert r[i] == next[i] == more[0];
    }
  }

  /** What the resolver returns, when it returns entries, is the first-occurrence
      de-duplication of the full depth-first expansion. */
  lemma FirstOccurrences(w: World, root: Path)
    requires Expand(w, root, []).Ok?
    ensures var all, r := Expand(w, root, []).value, After([], Expand(w, root, [])).value;
      && Distinct(r) && (forall e :: e in r <==> e in all)
      && (forall i, j :: 0 <= i < j < |r| ==> FirstIndex(all, r[i]) < FirstIndex(all, r[j]))
  {
    var all := Expand(w, root, []).value;
    var r := Collect([], all);
    CollectDistinct([], all);
    forall e ensures e in r <==> e in all {
      CollectMembers([], all, e);
    }
    forall i, j | 0 <= i < j < |r| ensures r[i] in all && r[j] in all && FirstIndex(all, r[i]) < FirstIndex(all, r[j]) {
      CollectOrder([], all, i, j);
    }
  }
}
