/** The printed list as the tool writes it, with absolute or relative paths, resolved again. */
module FileListRoundTrip {
  import opened Prelude
  import opened FileText
  import opened FilePaths
  import opened FileList
  import opened FileListResolve
  import opened FileListPrint

  function NamesOf(path: Path): Names {
    Parts(path, "")
  }

  // An absolute path without links, dots or doubled slashes.
  predicate Canonical(path: Path) {
    Proper(NamesOf(path)) && path == AsPosix(NamesOf(path))
  }

  // The directory of a file.
  function Directory(path: Path): Names {
    if NamesOf(path) == [] then [] else NamesOf(path)[..|NamesOf(path)| - 1]
  }

  function RenderPath(path: Path, dir: Names, absolute: bool): string {
    if absolute then path else Relative(NamesOf(path), dir)
  }

  function Renderer(dir: Names, absolute: bool): (show: Path -> string)
    ensures forall path :: show(path) == RenderPath(path, dir, absolute)
  {
    (path: Path) => RenderPath(path, dir, absolute)
  }

  method RenderFilelist(entries: seq<Entry>, output: Path, absolute: bool) returns (text: string)
    ensures text == Unlines(Rendered(entries, Renderer(Directory(output), absolute)))
  {
    text := Render(entries, Renderer(Directory(output), absolute));
  }

  /** The file system holds its files under canonical paths. */
  ghost predicate Filed(w: World) {
    forall p :: Exists(w, p) ==> Canonical(p)
  }

  /** Reading the path of an existing file in the output file leads there, when the path is
      followed through no directory but those on the way to the output and to the file. */
  ghost predicate Followed(w: World, output: Path) {
    forall path, text :: Exists(w, path) && Straight(Directory(output), NamesOf(path), text) ==>
      w.join(output, text) == path
  }

  /** Names are followed one by one, and through links wherever there are any. As long as
      none is on the way to an existing file or to the output, which are given by their
      resolved paths, straight texts lead where they should. */
  lemma LinksElsewhereFollowed(w: World, output: Path, links: Links)
    requires Filed(w) && Unlinked(links, Directory(output))
    requires forall path :: Exists(w, path) ==> Unlinked(links, NamesOf(path))
    requires forall text ::
      w.join(output, text) == AsPosix(FollowAll(links, Origin(Directory(output), text), Parts(text, "")))
    ensures Followed(w, output)
  {
    forall path, text | Exists(w, path) && Straight(Directory(output), NamesOf(path), text)
      ensures w.join(output, text) == path
    {
      var parts := Parts(text, "");
      StraightFollowed(links, Directory(output), NamesOf(path), text, |parts|);
      assert parts[..|parts|] == parts;
    }
  }

  ghost predicate AllTidy(entries: seq<Entry>, dir: Names, absolute: bool) {
    forall i :: 0 <= i < |entries| ==>
      entries[i].Flag? || Tidy(entries[i], RenderPath(entries[i].path, dir, absolute))
  }

  lemma RenderedFollowed(w: World, output: Path, path: Path, absolute: bool)
    requires Followed(w, output) && Canonical(output) && Canonical(path) && Exists(w, path)
    ensures w.join(output, RenderPath(path, Directory(output), absolute)) == path
  {
    AbsoluteStraight(Directory(output), NamesOf(path));
    RelativeStraight(Directory(output), NamesOf(path));
    assert Straight(Directory(output), NamesOf(path), RenderPath(path, Directory(output), absolute));
  }

  /** Resolve, print with absolute or with relative paths, resolve: the same entries in the
      same order, as long as every printed path can stand on a line. */
  lemma PrintedListResolves(w: World, root: Path, output: Path, absolute: bool)
    requires Tree(w) && Filed(w) && Resolve(w, root).Ok?
    requires Canonical(output) && Followed(w, output) && Unaware(w, output, Resolve(w, root).value)
    requires AllTidy(Resolve(w, root).value, Directory(output), absolute)
    ensures var entries := Resolve(w, root).value;
      var text := Unlines(Rendered(entries, Renderer(Directory(output), absolute)));
      Resolve(Written(w, output, text), output) == Ok(entries)
  {
    var entries, show := Resolve(w, root).value, Renderer(Directory(output), absolute);
    Resolved(w, root);
    forall i | 0 <= i < |entries| ensures Presentable(w, output, show, entries[i]) {
      assert Sound(w, entries[i]);
      if !entries[i].Flag? {
        RenderedFollowed(w, output, entries[i].path, absolute);
      }
    }
    ResolveRenderResolve(w, root, output, show);
  }
}
