/** What each kind of line of a file list stands for, on the characters of the line. */
module FileListMeaning {
  import opened Prelude
  import opened FileText
  import opened FileLines
  import opened FileList

  predicate Blank(s: string) {
    forall i :: 0 <= i < |s| ==> White(s[i])
  }

  lemma {:induction false} BlankStripped(s: string)
    requires Blank(s)
    ensures Strip(s) == "" && RightStrip(s) == ""
    decreases |s|
  {
    if s != "" {
      BlankStripped(s[1..]);
      BlankStripped(s[..|s| - 1]);
    }
  }

  lemma {:induction false} RightPadding(s: string, pad: string)
    requires Blank(pad) && (s != "" ==> !White(s[|s| - 1]))
    ensures RightStrip(s + pad) == s
    decreases |pad|
  {
    if pad == "" {
      assert s + pad == s;
    } else {
      assert (s + pad)[..|s + pad| - 1] == s + pad[..|pad| - 1];
      RightPadding(s, pad[..|pad| - 1]);
    }
  }

  /** White space around a text is taken off, and nothing else. */
  lemma {:induction false} Stripped(left: string, s: string, right: string)
    requires Blank(left) && Blank(right) && Trim(s)
    ensures Strip(left + s + right) == s
    decreases |left|
  {
    var all := left + s + right;
    if left != "" {
      assert all[1..] == left[1..] + s + right;
      Stripped(left[1..], s, right);
    } else if s == "" {
      assert all == right;
      BlankStripped(right);
    } else {
      assert all == s + right && all[0] == s[0];
      RightPadding(s, right);
    }
  }

  /** `-f` and a name read the list of that name from where this list is. */
  lemma NestedLine(w: World, list: Path, active: seq<Path>, number: int, pad: string, name: string)
    requires Blank(pad) && Trim(name) && name != ""
    ensures var path, r := w.join(list, name), ExpandLine(w, list, active, Line(number, "-f " + pad + name));
      && (path in w.texts || path in w.dirs ==> r == Expand(w, path, active))
      && (!(path in w.texts || path in w.dirs) ==> r == Err(Missing(list, number, name)))
  {
    NestedMeans(pad, name);
  }

  lemma NestedMeans(pad: string, name: string)
    requires Blank(pad) && Trim(name)
    ensures Meaning("-f " + pad + name) == Nested(name)
  {
    var text, rest := "-f " + pad + name, " " + pad;
    assert text[2..] == rest + name + "";
    Stripped(rest, name, "");
  }

  // Without a name it is an error.
  lemma NoName(w: World, list: Path, active: seq<Path>, number: int, text: string)
    requires text == "-f"
    ensures ExpandLine(w, list, active, Line(number, text)) == Err(NoListName(list, number))
  {
    assert Strip(text[2..]) == "";
  }

  // The names that are not empty.
  function NonEmpty(names: seq<string>): seq<string> {
    if names == [] then []
    else (if names[0] == "" then [] else [names[0]]) + NonEmpty(names[1..])
  }

  lemma {:induction false} PiecesOfOne(name: string, rest: string, piece: string)
    requires '+' !in name
    ensures Pieces(name + "+" + rest, piece) == NonEmpty([piece + name]) + Pieces(rest, "")
    ensures Pieces(name, piece) == NonEmpty([piece + name])
    decreases |name|
  {
    var text := name + "+" + rest;
    if name == "" {
      assert text[0] == '+' && text[1..] == rest && piece + name == piece;
      assert NonEmpty([piece][1..]) == [];
    } else {
      assert text[0] == name[0] && text[1..] == name[1..] + "+" + rest;
      assert piece + [name[0]] + name[1..] == piece + name;
      PiecesOfOne(name[1..], rest, piece + [name[0]]);
    }
  }

  lemma {:induction false} PiecesOfAll(names: seq<string>)
    requires names != [] && forall i :: 0 <= i < |names| ==> '+' !in names[i]
    ensures Pieces(Joined("+", names), "") == NonEmpty(names)
    decreases |names|
  {
    var first, rest := names[0], names[1..];
    assert "" + first == first && [first][1..] == [];
    PiecesOfOne(first, Joined("+", rest), "");
    assert NonEmpty([first]) == if first == "" then [] else [first];
    if rest != [] {
      PiecesOfAll(rest);
    }
  }

  // The directory named at k is the first that is none.
  ghost predicate NoDirectory(w: World, list: Path, number: int, values: seq<string>, k: int,
                              r: Result<seq<Entry>, Error>)
  {
    && 0 <= k < |values| && w.join(list, values[k]) !in w.dirs
    && (forall i :: 0 <= i < k ==> w.join(list, values[i]) in w.dirs)
    && r == Err(if w.join(list, values[k]) in w.texts then NotDirectory(list, number, values[k])
                else Missing(list, number, values[k]))
  }

  // How the directories end: as entries in their order, or with the first that is none.
  ghost predicate Directories(w: World, list: Path, number: int, values: seq<string>,
                              r: Result<seq<Entry>, Error>)
  {
    if forall i :: 0 <= i < |values| ==> w.join(list, values[i]) in w.dirs then
      && r.Ok? && |r.value| == |values|
      && forall i :: 0 <= i < |values| ==> r.value[i] == IncDir(w.join(list, values[i]))
    else
      exists k :: NoDirectory(w, list, number, values, k, r)
  }

  lemma DirectoriesMore(w: World, list: Path, number: int, values: seq<string>, rest: Result<seq<Entry>, Error>,
                        r: Result<seq<Entry>, Error>)
    requires values != [] && w.join(list, values[0]) in w.dirs && Directories(w, list, number, values[1..], rest)
    requires r == Then(Ok([IncDir(w.join(list, values[0]))]), rest)
    ensures Directories(w, list, number, values, r)
  {
    var later := values[1..];
    if forall i :: 0 <= i < |later| ==> w.join(list, later[i]) in w.dirs {
      forall i | 0 <= i < |values| ensures w.join(list, values[i]) in w.dirs {
        assert i > 0 ==> values[i] == later[i - 1];
      }
      forall i | 0 < i < |values| ensures r.value[i] == IncDir(w.join(list, values[i])) {
        assert values[i] == later[i - 1] && r.value[i] == rest.value[i - 1];
      }
    } else {
      var k :| NoDirectory(w, list, number, later, k, rest);
      assert values[k + 1] == later[k];
      forall i | 0 <= i < k + 1 ensures w.join(list, values[i]) in w.dirs {
        assert i > 0 ==> values[i] == later[i - 1];
      }
      assert NoDirectory(w, list, number, values, k + 1, r);
    }
  }

  lemma {:induction false} DirectoriesAre(w: World, list: Path, number: int, values: seq<string>)
    ensures Directories(w, list, number, values, DirectoryEntries(w, list, number, values))
    decreases |values|
  {
    if values != [] {
      if w.join(list, values[0]) in w.dirs {
        DirectoriesAre(w, list, number, values[1..]);
        DirectoriesMore(w, list, number, values, DirectoryEntries(w, list, number, values[1..]),
                        DirectoryEntries(w, list, number, values));
      } else {
        assert NoDirectory(w, list, number, values, 0, DirectoryEntries(w, list, number, values));
      }
    }
  }

  /** `+incdir+` and names separated by plus signs: every name that is not empty is an include
      directory, in the order of the names; the first that is none is the error, and a line
      without any name is one too. */
  lemma IncDirNames(w: World, list: Path, active: seq<Path>, number: int, names: seq<string>)
    requires names != [] && forall i :: 0 <= i < |names| ==> '+' !in names[i]
    ensures var values := NonEmpty(names);
      var r := ExpandLine(w, list, active, Line(number, "+incdir+" + Joined("+", names)));
      if values == [] then r == Err(NoDirectoryName(list, number)) else Directories(w, list, number, values, r)
  {
    var rest := Joined("+", names);
    var text := "+incdir+" + rest;
    PiecesOfAll(names);
    DirectoriesAre(w, list, number, NonEmpty(names));
    assert text[8..] == rest && text[0] == '+';
    assert Meaning(text) == FileLines.Directories(NonEmpty(names));
  }

  /** Any other line that begins with a plus or a minus is kept as it is. */
  lemma OptionLine(w: World, list: Path, active: seq<Path>, number: int, text: string)
    requires text != "" && (text[0] == '+' || text[0] == '-')
    requires text != "-f" && !("-f " <= text) && !("+incdir+" <= text)
    ensures ExpandLine(w, list, active, Line(number, text)) == Ok([Flag(text)])
  {
    assert Meaning(text) == FileLines.Option(text);
  }

  /** Any other line is the name of a source, which must exist and not be a directory. */
  lemma SourceName(w: World, list: Path, active: seq<Path>, number: int, text: string)
    requires text != "" && text[0] != '+' && text[0] != '-'
    ensures var path, r := w.join(list, text), ExpandLine(w, list, active, Line(number, text));
      && (path in w.dirs ==> r == Err(IsDirectory(list, number, text)))
      && (path !in w.dirs && path in w.texts ==> r == Ok([SourceFile(path)]))
      && (path !in w.dirs && path !in w.texts ==> r == Err(Missing(list, number, text)))
  {
    assert Meaning(text) == Source(text);
  }

  // A line that begins, after white space, with // or #.
  ghost predicate Comment(raw: string) {
    exists k :: 0 <= k < |raw| && Blank(raw[..k]) && (raw[k] == '#' || (k + 1 < |raw| && raw[k] == raw[k + 1] == '/'))
  }

  lemma RightStripKeeps(s: string, n: nat)
    requires n < |s| && !White(s[n])
    ensures |RightStrip(s)| > n && RightStrip(s)[..n + 1] == s[..n + 1]
    decreases |s|
  {
    if White(s[|s| - 1]) {
      RightStripKeeps(s[..|s| - 1], n);
    }
  }

  lemma BlankRest(s: string)
    requires Blank(s) && s != ""
    ensures Blank(s[1..])
  {
  }

  lemma {:induction false} CommentBegins(raw: string, k: int)
    requires 0 <= k < |raw| && Blank(raw[..k]) && (raw[k] == '#' || (k + 1 < |raw| && raw[k] == raw[k + 1] == '/'))
    ensures "#" <= Strip(raw) || "//" <= Strip(raw)
    decreases k
  {
    if k > 0 {
      assert White(raw[..k][0]);
      assert raw[1..][..k - 1] == raw[..k][1..];
      BlankRest(raw[..k]);
      CommentBegins(raw[1..], k - 1);
    } else if raw[0] == '#' {
      RightStripKeeps(raw, 0);
    } else {
      RightStripKeeps(raw, 1);
      assert raw[..2] == "//";
    }
  }

  /** Blank lines and comments are passed over, even between a continued line and its rest. */
  lemma PassedOver(s: Scan, number: int, raw: string)
    requires Blank(raw) || Comment(raw)
    ensures ScanLine(s, number, raw) == s
  {
    if Blank(raw) {
      BlankStripped(raw);
    } else {
      var k :| 0 <= k < |raw| && Blank(raw[..k])
        && (raw[k] == '#' || (k + 1 < |raw| && raw[k] == raw[k + 1] == '/'));
      CommentBegins(raw, k);
    }
  }

  // What stands on a line that is neither blank nor a comment.
  predicate Content(s: string) {
    Trim(s) && s != "" && s[0] != '#' && !(|s| > 1 && s[0] == s[1] == '/')
  }

  lemma ContentRead(left: string, s: string, right: string)
    requires Blank(left) && Blank(right) && Content(s)
    ensures Strip(left + s + right) == s && !Skipped(s)
  {
    Stripped(left, s, right);
  }

  // The number of a logical line is that of the first line it was made of.
  function First(s: Scan, number: int): int {
    if s.start == 0 then number else s.start
  }

  /** A line that does not end in a backslash ends the logical line: what was continued, and
      this line without the white space around it. */
  lemma LineEnds(s: Scan, number: int, left: string, line: string, right: string)
    requires Blank(left) && Blank(right) && Content(line) && line[|line| - 1] != '\\'
    ensures ScanLine(s, number, left + line + right)
         == Scan(s.lines + [Line(First(s, number), s.pending + line)], "", 0)
  {
    ContentRead(left, line, right);
    assert (s.pending + line)[|s.pending + line| - 1] == line[|line| - 1];
  }

  /** A line that ends in a backslash is continued with a single space; white space before
      the backslash is not kept. */
  lemma LineGoesOn(s: Scan, number: int, left: string, body: string, gap: string, right: string)
    requires Blank(left) && Blank(right) && Blank(gap) && Content(body)
    ensures ScanLine(s, number, left + (body + gap + "\\") + right)
         == Scan(s.lines, s.pending + body + " ", First(s, number))
  {
    var line := body + gap + "\\";
    ContinuedContent(body, gap, line);
    ContentRead(left, line, right);
    ContinuedWhole(s.pending, body, gap, s.pending + line);
  }

  lemma ContinuedContent(body: string, gap: string, line: string)
    requires Blank(gap) && Content(body) && line == body + gap + "\\"
    ensures Content(line)
  {
    assert line[|line| - 1] == '\\' && line[0] == body[0];
    assert |body| > 1 ==> line[1] == body[1];
  }

  lemma ContinuedWhole(pending: string, body: string, gap: string, whole: string)
    requires Blank(gap) && Content(body) && whole == pending + (body + gap + "\\")
    ensures Continued(whole) && RightStrip(whole[..|whole| - 1]) == pending + body
  {
    var kept := pending + body;
    assert whole == kept + gap + "\\" && whole[..|whole| - 1] == kept + gap;
    assert kept[|kept| - 1] == body[|body| - 1];
    RightPadding(kept, gap);
  }

  /** A line `include "name" is recognised exactly by its parts: the directive after nothing
      but white space, white space, and a non-empty name in quotes. */
  ghost predicate Directive(line: string, pad: string, gap: string, name: string, rest: string) {
    && Blank(pad) && Blank(gap) && gap != "" && name != "" && '"' !in name
    && line == pad + "`include" + gap + "\"" + name + "\"" + rest
  }

  lemma {:induction false} QuotedName(name: string, rest: string, before: string)
    requires '"' !in name && before + name != ""
    ensures Quoted(name + "\"" + rest, before) == Some(before + name)
    decreases |name|
  {
    var text := name + "\"" + rest;
    if name == "" {
      assert text[0] == '"' && before + name == before;
    } else {
      assert text[0] == name[0] && text[1..] == name[1..] + "\"" + rest;
      assert before + [name[0]] + name[1..] == before + name;
      QuotedName(name[1..], rest, before + [name[0]]);
    }
  }

  lemma {:induction false} SkippedWhite(pad: string, rest: string)
    requires Blank(pad) && rest != "" && !White(rest[0])
    ensures SkipWhite(pad + rest) == rest
    decreases |pad|
  {
    if pad == "" {
      assert pad + rest == rest;
    } else {
      assert (pad + rest)[1..] == pad[1..] + rest;
      SkippedWhite(pad[1..], rest);
    }
  }

  lemma DirectiveRead(line: string, pad: string, gap: string, name: string, rest: string)
    requires Directive(line, pad, gap, name, rest)
    ensures IncludeName(line) == Some(name)
  {
    var quoted := "\"" + name + "\"" + rest;
    var middle := "`include" + (gap + quoted);
    assert line == pad + middle && middle[0] == '`';
    SkippedWhite(pad, middle);
    assert middle[8..] == gap + quoted && middle[8] == gap[0];
    SkippedWhite(gap, quoted);
    assert quoted[1..] == name + "\"" + rest;
    QuotedName(name, rest, "");
    assert "" + name == name;
  }

  lemma {:induction false} QuotedFrom(s: string, before: string) returns (name: string, rest: string)
    requires Quoted(s, before).Some? && '"' !in before
    ensures Quoted(s, before) == Some(before + name) && before + name != "" && '"' !in before + name
    ensures s == name + "\"" + rest
    decreases |s|
  {
    if s[0] == '"' {
      name, rest := "", s[1..];
      assert before + name == before;
    } else {
      var more;
      more, rest := QuotedFrom(s[1..], before + [s[0]]);
      name := [s[0]] + more;
      assert before + name == before + [s[0]] + more;
    }
  }

  lemma {:induction false} WhiteBefore(s: string) returns (pad: string)
    ensures Blank(pad) && s == pad + SkipWhite(s) && (SkipWhite(s) != s ==> pad != "")
    ensures SkipWhite(s) != "" ==> !White(SkipWhite(s)[0])
    decreases |s|
  {
    if s != "" && White(s[0]) {
      var more := WhiteBefore(s[1..]);
      pad := [s[0]] + more;
    } else {
      pad := "";
    }
  }

  lemma DirectiveFound(line: string) returns (pad: string, gap: string, rest: string)
    requires IncludeName(line).Some?
    ensures Directive(line, pad, gap, IncludeName(line).value, rest)
  {
    var middle := SkipWhite(line);
    var after, quoted := middle[8..], SkipWhite(middle[8..]);
    pad := WhiteBefore(line);
    gap := WhiteBefore(after);
    var name;
    name, rest := QuotedFrom(quoted[1..], "");
    assert "" + name == name;
    DirectiveParts(line, pad, middle, gap, quoted, name, rest);
  }

  lemma DirectiveParts(line: string, pad: string, middle: string, gap: string, quoted: string, name: string,
                       rest: string)
    requires line == pad + middle && "`include" <= middle && middle[8..] == gap + quoted
    requires "\"" <= quoted && quoted[1..] == name + "\"" + rest
    ensures line == pad + "`include" + gap + "\"" + name + "\"" + rest
  {
    assert middle == "`include" + middle[8..] && quoted == "\"" + quoted[1..];
  }

  /** The include directive is found exactly where it stands. */
  lemma IncludeIff(line: string, name: string)
    ensures IncludeName(line) == Some(name) <==> exists pad, gap, rest :: Directive(line, pad, gap, name, rest)
  {
    if IncludeName(line) == Some(name) {
      var pad, gap, rest := DirectiveFound(line);
    }
    forall pad, gap, rest | Directive(line, pad, gap, name, rest) ensures IncludeName(line) == Some(name) {
      DirectiveRead(line, pad, gap, name, rest);
    }
  }
}
