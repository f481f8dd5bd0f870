/** Resolved paths, relative paths between them, and how a relative path is followed. */
module FilePaths {
  import opened FileText

  // The name of a file in its directory.
  predicate Name(s: string) {
    s != "" && '/' !in s && s != "." && s != ".."
  }

  // A resolved path, from the root down.
  type Names = seq<string>

  predicate Proper(names: Names) {
    forall i :: 0 <= i < |names| ==> Name(names[i])
  }

  // What a part of a path may be once empty parts and single dots are dropped.
  predicate Part(s: string) {
    s != "" && '/' !in s && s != "."
  }

  function Parts(text: string, part: string): (parts: seq<string>)
    decreases |text|
  {
    var done := if part == "" || part == "." then [] else [part];
    if text == "" then done
    else if text[0] == '/' then done + Parts(text[1..], "")
    else Parts(text[1..], part + [text[0]])
  }

  // One part followed from a directory.
  function Enter(at: Names, part: string): Names {
    if part != ".." then at + [part] else if at == [] then [] else at[..|at| - 1]
  }

  // The parts followed one after the other.
  function Walk(at: Names, parts: seq<string>): Names {
    if parts == [] then at else Enter(Walk(at, parts[..|parts| - 1]), parts[|parts| - 1])
  }

  // Where a text starts.
  function Origin(dir: Names, text: string): Names {
    if "/" <= text then [] else dir
  }

  function Lexical(dir: Names, text: string): Names {
    Walk(Origin(dir, text), Parts(text, ""))
  }

  function AsPosix(names: Names): string {
    "/" + Joined("/", names)
  }

  function CommonPrefix(a: Names, b: Names): (n: nat)
    ensures n <= |a| && n <= |b| && a[..n] == b[..n]
  {
    if a == [] || b == [] || a[0] != b[0] then 0 else 1 + CommonPrefix(a[1..], b[1..])
  }

  function Ups(n: nat): (parts: seq<string>)
    ensures |parts| == n && forall i :: 0 <= i < n ==> parts[i] == ".."
  {
    seq(n, i => "..")
  }

  function RelativeParts(path: Names, dir: Names): seq<string> {
    var n := CommonPrefix(path, dir);
    Ups(|dir| - n) + path[n..]
  }

  function Relative(path: Names, dir: Names): string {
    if path == dir then "." else Joined("/", RelativeParts(path, dir))
  }

  lemma {:induction false} PartsOne(part: string, rest: string, before: string)
    requires '/' !in part && Part(before + part) && (rest == "" || rest[0] == '/')
    ensures Parts(part + rest, before)
         == [before + part] + if rest == "" then [] else Parts(rest[1..], "")
    decreases |part|
  {
    if part == "" {
      assert before + part == before && part + rest == rest;
    } else {
      assert (part + rest)[0] == part[0] && (part + rest)[1..] == part[1..] + rest;
      assert before + [part[0]] + part[1..] == before + part;
      PartsOne(part[1..], rest, before + [part[0]]);
    }
  }

  /** Parts joined by slashes are found again. */
  lemma {:induction false} PartsJoined(parts: seq<string>)
    requires forall i :: 0 <= i < |parts| ==> Part(parts[i])
    ensures Parts(Joined("/", parts), "") == parts
  {
    if |parts| == 1 {
      PartsOne(parts[0], "", "");
      assert parts[0] + "" == parts[0] && "" + parts[0] == parts[0];
    } else if |parts| > 1 {
      var rest := "/" + Joined("/", parts[1..]);
      assert Joined("/", parts) == parts[0] + rest && "" + parts[0] == parts[0];
      PartsOne(parts[0], rest, "");
      PartsJoined(parts[1..]);
      assert rest[1..] == Joined("/", parts[1..]);
    }
  }

  lemma PartsPosix(names: Names)
    requires Proper(names)
    ensures Parts(AsPosix(names), "") == names
  {
    PartsJoined(names);
    var text := AsPosix(names);
    assert text[0] == '/' && text[1..] == Joined("/", names);
  }

  lemma {:induction false} WalkAppend(at: Names, first: seq<string>, second: seq<string>)
    ensures Walk(at, first + second) == Walk(Walk(at, first), second)
    decreases |second|
  {
    if second == [] {
      assert first + second == first;
    } else {
      var k := |second| - 1;
      assert (first + second)[..|first| + k] == first + second[..k];
      WalkAppend(at, first, second[..k]);
    }
  }

  lemma {:induction false} WalkDown(at: Names, names: Names)
    requires Proper(names)
    ensures Walk(at, names) == at + names
    decreases |names|
  {
    if names != [] {
      WalkDown(at, names[..|names| - 1]);
      assert names == names[..|names| - 1] + [names[|names| - 1]];
    }
  }

  lemma {:induction false} WalkUp(at: Names, n: nat)
    requires n <= |at|
    ensures Walk(at, Ups(n)) == at[..|at| - n]
    decreases n
  {
    if n > 0 {
      assert Ups(n)[..n - 1] == Ups(n - 1);
      WalkUp(at, n - 1);
    }
  }

  /** A text is followed from one resolved directory to a resolved path without leaving the
      directories on the way to the two. */
  ghost predicate Straight(dir: Names, path: Names, text: string) {
    && Lexical(dir, text) == path
    && forall k :: 0 <= k <= |Parts(text, "")| ==>
         var at := Walk(Origin(dir, text), Parts(text, "")[..k]); at <= dir || at <= path
  }

  // Up and then down again: where the first parts lead.
  lemma WalkTurns(from: Names, ups: nat, some: Names, top: Names)
    requires ups <= |from| && top == from[..|from| - ups] && Proper(some)
    ensures Walk(from, Ups(ups) + some) == top + some
  {
    WalkUp(from, ups);
    WalkAppend(from, Ups(ups), some);
    WalkDown(top, some);
  }

  lemma WalkThrough(from: Names, ups: nat, down: Names, top: Names, k: nat)
    requires ups <= |from| && top == from[..|from| - ups] && Proper(down) && k <= ups + |down|
    ensures var at := Walk(from, (Ups(ups) + down)[..k]); at <= from || at <= top + down
  {
    if k <= ups {
      assert (Ups(ups) + down)[..k] == Ups(k);
      WalkUp(from, k);
    } else {
      assert (Ups(ups) + down)[..k] == Ups(ups) + down[..k - ups];
      WalkTurns(from, ups, down[..k - ups], top);
      assert top + down[..k - ups] <= top + down;
    }
  }

  lemma StraightParts(dir: Names, path: Names, text: string, ups: nat, down: Names)
    requires Parts(text, "") == Ups(ups) + down && Origin(dir, text) <= dir
    requires ups <= |Origin(dir, text)| && Proper(down)
    requires path == Origin(dir, text)[..|Origin(dir, text)| - ups] + down
    ensures Straight(dir, path, text)
  {
    var from, parts := Origin(dir, text), Parts(text, "");
    var top := from[..|from| - ups];
    forall k | 0 <= k <= |parts| ensures Walk(from, parts[..k]) <= dir || Walk(from, parts[..k]) <= path {
      WalkThrough(from, ups, down, top, k);
    }
    WalkTurns(from, ups, down, top);
  }

  /** The absolute form of a resolved path leads there from anywhere. */
  lemma AbsoluteStraight(dir: Names, path: Names)
    requires Proper(path)
    ensures Straight(dir, path, AsPosix(path))
  {
    PartsPosix(path);
    assert Ups(0) + path == path && [] + path == path;
    StraightParts(dir, path, AsPosix(path), 0, path);
  }

  lemma JoinedOrigin(dir: Names, parts: seq<string>)
    requires parts != [] && Part(parts[0])
    ensures Origin(dir, Joined("/", parts)) == dir
  {
    assert Joined("/", parts)[0] == parts[0][0];
  }

  lemma RelativePartsGood(path: Names, dir: Names)
    requires Proper(path) && path != dir
    ensures var parts := RelativeParts(path, dir); parts != [] && forall i :: 0 <= i < |parts| ==> Part(parts[i])
  {
    var n := CommonPrefix(path, dir);
    assert path[..n] + path[n..] == path && dir[..n] + dir[n..] == dir;
  }

  lemma RelativeRead(dir: Names, path: Names)
    requires Proper(path) && path != dir
    ensures Origin(dir, Relative(path, dir)) == dir
    ensures Parts(Relative(path, dir), "") == RelativeParts(path, dir)
  {
    RelativePartsGood(path, dir);
    PartsJoined(RelativeParts(path, dir));
    JoinedOrigin(dir, RelativeParts(path, dir));
  }

  /** The relative form of a resolved path leads there from the directory it is relative to. */
  lemma RelativeStraight(dir: Names, path: Names)
    requires Proper(path) && Proper(dir)
    ensures Straight(dir, path, Relative(path, dir))
  {
    var n := CommonPrefix(path, dir);
    assert dir[..n] + path[n..] == path;
    if path == dir {
      assert Parts(".", "") == Parts("", ".") == [];
      assert dir[..|dir|] + [] == path && Ups(0) + [] == [];
      StraightParts(dir, path, ".", 0, []);
    } else {
      RelativeRead(dir, path);
      StraightParts(dir, path, Relative(path, dir), |dir| - n, path[n..]);
    }
  }

  // Symbolic links by the resolved directory they are in and their name, and where each
  // of them finally leads.
  type Links = map<Names, Names>

  // One part followed from a resolved directory.
  function Follow(links: Links, at: Names, part: string): Names {
    if part != ".." && at + [part] in links then links[at + [part]] else Enter(at, part)
  }

  function FollowAll(links: Links, at: Names, parts: seq<string>): Names {
    if parts == [] then at else Follow(links, FollowAll(links, at, parts[..|parts| - 1]), parts[|parts| - 1])
  }

  // Nothing on the way from the root is a link.
  ghost predicate Unlinked(links: Links, path: Names) {
    forall k :: 0 <= k <= |path| ==> path[..k] !in links
  }

  lemma PrefixUnlinked(links: Links, path: Names, at: Names)
    requires Unlinked(links, path) && at <= path
    ensures at !in links
  {
    assert at == path[..|at|];
  }

  /** A straight text meets no link, wherever else there are links. */
  lemma {:induction false} StraightFollowed(links: Links, dir: Names, path: Names, text: string, k: int)
    requires Straight(dir, path, text) && Unlinked(links, dir) && Unlinked(links, path)
    requires 0 <= k <= |Parts(text, "")|
    ensures FollowAll(links, Origin(dir, text), Parts(text, "")[..k]) == Walk(Origin(dir, text), Parts(text, "")[..k])
    decreases k
  {
    if k > 0 {
      var parts, from := Parts(text, ""), Origin(dir, text);
      assert parts[..k][..k - 1] == parts[..k - 1];
      StraightFollowed(links, dir, path, text, k - 1);
      var at := Walk(from, parts[..k]);
      if at <= dir {
        PrefixUnlinked(links, dir, at);
      } else {
        assert at <= path;
        PrefixUnlinked(links, path, at);
      }
    }
  }
}
