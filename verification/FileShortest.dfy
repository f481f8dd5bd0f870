/** The printed form of a path is the shortest that leads there, and the only one of its
    length. */
module FileShortest {
  import opened FileText
  import opened FilePaths

  // The characters of the parts, and a slash for each.
  function Cost(parts: seq<string>): nat {
    if parts == [] then 0 else |parts[0]| + 1 + Cost(parts[1..])
  }

  lemma {:induction false} CostAppend(first: seq<string>, second: seq<string>)
    ensures Cost(first + second) == Cost(first) + Cost(second)
  {
    if first == [] {
      assert first + second == second;
    } else {
      assert (first + second)[1..] == first[1..] + second;
      CostAppend(first[1..], second);
    }
  }

  lemma CostMore(parts: seq<string>, part: string)
    ensures Cost(parts + [part]) == Cost(parts) + |part| + 1
  {
    CostAppend(parts, [part]);
  }

  lemma {:induction false} CostUps(n: nat)
    ensures Cost(Ups(n)) == 3 * n
  {
    if n > 0 {
      assert Ups(n)[1..] == Ups(n - 1);
      CostUps(n - 1);
    }
  }

  lemma {:induction false} JoinedCost(parts: seq<string>)
    requires parts != []
    ensures |Joined("/", parts)| + 1 == Cost(parts)
  {
    if |parts| > 1 {
      JoinedCost(parts[1..]);
    }
  }

  // A part that has been read, if it counts.
  function Done(part: string): seq<string> {
    if part == "" || part == "." then [] else [part]
  }

  lemma PartsNext(text: string, part: string)
    requires text != "" && text[0] == '/'
    ensures Parts(text, part) == Done(part) + Parts(text[1..], "")
    ensures Cost(Parts(text, part)) == Cost(Done(part)) + Cost(Parts(text[1..], ""))
  {
    CostAppend(Done(part), Parts(text[1..], ""));
  }

  /** A text is at least as long as its parts and the slashes between them. */
  lemma {:induction false} PartsCost(text: string, part: string)
    ensures Cost(Parts(text, part)) <= |part| + |text| + 1
    decreases |text|
  {
    if text != "" && text[0] == '/' {
      PartsNext(text, part);
      PartsCost(text[1..], "");
    } else if text != "" {
      PartsCost(text[1..], part + [text[0]]);
    }
  }

  lemma JoinedMore(part: string, rest: seq<string>, text: string)
    requires rest != [] && text == Joined("/", rest)
    ensures Joined("/", [part] + rest) == part + "/" + text
  {
    assert ([part] + rest)[1..] == rest;
  }

  /** A text that is no longer than its parts and the slashes between them is those. */
  lemma {:induction false} PartsFull(text: string, part: string)
    requires Cost(Parts(text, part)) == |part| + |text| + 1
    ensures Joined("/", Parts(text, part)) == part + text
    decreases |text|
  {
    if text == "" {
      assert part + text == part;
    } else if text[0] == '/' {
      PartsNext(text, part);
      PartsCost(text[1..], "");
      PartsFull(text[1..], "");
      assert "" + text[1..] == text[1..];
      JoinedMore(part, Parts(text[1..], ""), text[1..]);
      assert part + "/" + text[1..] == part + text;
    } else {
      PartsFull(text[1..], part + [text[0]]);
      assert part + [text[0]] + text[1..] == part + text;
    }
  }

  lemma {:induction false} PartsAreParts(text: string, part: string, i: int)
    requires '/' !in part && 0 <= i < |Parts(text, part)|
    ensures Part(Parts(text, part)[i])
    decreases |text|
  {
    if text != "" {
      if text[0] != '/' {
        PartsAreParts(text[1..], part + [text[0]], i);
      } else {
        if i >= |Done(part)| {
          PartsAreParts(text[1..], "", i - |Done(part)|);
        }
      }
    }
  }

  // How a walk got where it is: k names of where it started are left, and the rest are new.
  ghost predicate Got(from: Names, parts: seq<string>, at: Names, k: int) {
    && 0 <= k <= |from| && k <= |at| && at[..k] == from[..k]
    && (forall i :: k <= i < |at| ==> at[i] in parts && at[i] != "..")
    && Cost(parts) >= 3 * (|from| - k) + Cost(at[k..])
    && (Cost(parts) == 3 * (|from| - k) + Cost(at[k..]) ==> parts == Ups(|from| - k) + at[k..])
  }

  lemma GotDown(from: Names, parts: seq<string>, at: Names, k: int, part: string)
    requires Got(from, parts, at, k) && part != ".."
    ensures Got(from, parts + [part], at + [part], k)
  {
    CostMore(parts, part);
    CostMore(at[k..], part);
    assert (at + [part])[k..] == at[k..] + [part];
    assert forall i :: k <= i < |at| ==> at[i] in parts + [part];
    assert Ups(|from| - k) + at[k..] + [part] == Ups(|from| - k) + (at[k..] + [part]);
  }

  // Going up drops the last new name, or else the last old one, or else nothing.
  lemma GotUp(from: Names, parts: seq<string>, at: Names, k: int) returns (j: int)
    requires Got(from, parts, at, k)
    ensures Got(from, parts + [".."], Enter(at, ".."), j)
  {
    CostMore(parts, "..");
    j := k;
    if k < |at| {
      var before := at[..|at| - 1];
      assert at[k..] == before[k..] + [at[|at| - 1]];
      CostMore(before[k..], at[|at| - 1]);
      assert forall i :: k <= i < |before| ==> before[i] in parts + [".."];
    } else if k > 0 {
      j := k - 1;
      assert at == from[..k] && at[..|at| - 1] == from[..j];
      assert Enter(at, "..")[j..] == [] && at[k..] == [];
      assert Ups(|from| - k) + [".."] == Ups(|from| - j);
      assert Ups(|from| - k) + [] == Ups(|from| - k) && Ups(|from| - j) + [] == Ups(|from| - j);
    }
  }

  lemma {:induction false} WalkGot(from: Names, parts: seq<string>) returns (k: int)
    ensures Got(from, parts, Walk(from, parts), k)
  {
    if parts == [] {
      k := |from|;
      assert Ups(0) + from[|from|..] == [];
    } else {
      var last := |parts| - 1;
      assert parts == parts[..last] + [parts[last]];
      k := WalkGot(from, parts[..last]);
      if parts[last] == ".." {
        k := GotUp(from, parts[..last], Walk(from, parts[..last]), k);
      } else {
        GotDown(from, parts[..last], Walk(from, parts[..last]), k, parts[last]);
      }
    }
  }

  lemma {:induction false} CommonPrefixMost(a: Names, b: Names, k: int)
    requires 0 <= k <= |a| && k <= |b| && a[..k] == b[..k]
    ensures k <= CommonPrefix(a, b)
  {
    if k > 0 {
      assert a[0] == a[..k][0] == b[0];
      assert a[1..][..k - 1] == a[..k][1..] && b[1..][..k - 1] == b[..k][1..];
      CommonPrefixMost(a[1..], b[1..], k - 1);
    }
  }

  lemma CostSplit(names: Names, k: int, n: int)
    requires 0 <= k <= n <= |names|
    ensures Cost(names[k..]) == Cost(names[k..n]) + Cost(names[n..])
  {
    assert names[k..] == names[k..n] + names[n..];
    CostAppend(names[k..n], names[n..]);
  }

  lemma RelativeCost(dir: Names, path: Names)
    ensures var n := CommonPrefix(path, dir); Cost(RelativeParts(path, dir)) == 3 * (|dir| - n) + Cost(path[n..])
  {
    var n := CommonPrefix(path, dir);
    CostAppend(Ups(|dir| - n), path[n..]);
    CostUps(|dir| - n);
  }

  lemma WalkCost(from: Names, parts: seq<string>, at: Names) returns (k: int)
    requires Walk(from, parts) == at
    ensures 0 <= k <= |from| && k <= |at| && at[..k] == from[..k]
    ensures Cost(parts) >= 3 * (|from| - k) + Cost(at[k..])
    ensures Cost(parts) == 3 * (|from| - k) + Cost(at[k..]) ==> parts == Ups(|from| - k) + at[k..]
  {
    k := WalkGot(from, parts);
  }

  /** No walk from one directory to another has fewer characters than up to the common
      directory and down again, and no other has as few. */
  lemma WalkShortest(dir: Names, path: Names, parts: seq<string>)
    requires Walk(dir, parts) == path
    ensures Cost(parts) >= Cost(RelativeParts(path, dir))
    ensures Cost(parts) == Cost(RelativeParts(path, dir)) ==> parts == RelativeParts(path, dir)
  {
    var k := WalkCost(dir, parts, path);
    var n := CommonPrefix(path, dir);
    CommonPrefixMost(path, dir, k);
    RelativeCost(dir, path);
    CostSplit(path, k, n);
  }

  // The form of a path that is printed.
  function Rendering(path: Names, dir: Names, absolute: bool): string {
    if absolute then AsPosix(path) else Relative(path, dir)
  }

  lemma AbsoluteShortest(dir: Names, path: Names, t: string)
    requires Proper(path) && "/" <= t && |t| <= |AsPosix(path)| && Lexical(dir, t) == path
    ensures t == AsPosix(path)
  {
    assert Parts(t, "") == Parts(t[1..], "") && t == "/" + t[1..];
    WalkShortest([], path, Parts(t, ""));
    PartsCost(t[1..], "");
    assert Ups(0) + path == path && RelativeParts(path, []) == path;
    if path != [] {
      JoinedCost(path);
      PartsFull(t[1..], "");
      assert "" + t[1..] == t[1..];
    }
  }

  lemma RelativeShortest(dir: Names, path: Names, t: string)
    requires Proper(path) && t != "" && !("/" <= t) && |t| <= |Relative(path, dir)| && Lexical(dir, t) == path
    ensures t == Relative(path, dir)
  {
    if path == dir {
      OneCharacter(dir, t);
    } else {
      RelativePartsGood(path, dir);
      WalkShortest(dir, path, Parts(t, ""));
      PartsCost(t, "");
      JoinedCost(RelativeParts(path, dir));
      PartsFull(t, "");
      assert "" + t == t;
    }
  }

  lemma OneCharacter(dir: Names, t: string)
    requires |t| == 1 && !("/" <= t) && Lexical(dir, t) == dir
    ensures t == "."
  {
    assert Parts(t, "") == Parts(t[1..], "" + [t[0]]) && "" + [t[0]] == t;
    if t != "." {
      WalkDown(dir, [t]);
    }
  }

  lemma AbsoluteLonger(dir: Names, path: Names)
    requires dir <= path && dir != path
    ensures |Relative(path, dir)| < |AsPosix(path)|
  {
    CommonPrefixMost(path, dir, |dir|);
    assert RelativeParts(path, dir) == path[|dir|..];
    JoinedCost(path[|dir|..]);
    JoinedCost(path);
    CostSplit(path, 0, |dir|);
    assert path[0..] == path;
  }

  lemma RelativeUp(dir: Names, path: Names)
    requires Proper(path) && path != dir && CommonPrefix(path, dir) < |dir|
    ensures Relative(path, dir)[..1] == "."
  {
    var parts := RelativeParts(path, dir);
    RelativePartsGood(path, dir);
    assert parts[0] == "..";
    assert Joined("/", parts)[0] == parts[0][0];
  }

  // A relative form that does not begin with a dot goes down only.
  lemma RelativeDown(dir: Names, path: Names)
    requires Proper(path) && Relative(path, dir)[..1] != "."
    ensures dir <= path && dir != path
  {
    var n := CommonPrefix(path, dir);
    if path != dir && n < |dir| {
      RelativeUp(dir, path);
    }
    assert dir[..|dir|] == dir;
  }

  /** No other text that is not longer leads where the printed form leads, unless it is
      relative where that is absolute, or absolute where that goes up or is a dot. */
  lemma NothingElse(dir: Names, path: Names, absolute: bool, t: string)
    requires Proper(path) && t != "" && |t| <= |Rendering(path, dir, absolute)| && t != Rendering(path, dir, absolute)
    requires if absolute then "/" <= t else "/" <= t ==> Rendering(path, dir, absolute)[..1] != "."
    ensures Lexical(dir, t) != path
  {
    if Lexical(dir, t) == path {
      if absolute {
        AbsoluteShortest(dir, path, t);
      } else if "/" <= t {
        RelativeDown(dir, path);
        AbsoluteLonger(dir, path);
        AbsoluteShortest(dir, path, t);
      } else {
        RelativeShortest(dir, path, t);
      }
    }
  }
}
