/** The lexical path operations of Go's path/filepath on a Unix system. */
module FilePath {
  import opened Text

  /** filepath.Clean. */
  function Clean(path: string): string {
    var rooted := Starts(path, '/');
    var body := Join(Keep(Split(path, '/'), [], rooted), '/');
    if rooted then "/" + body else if body == "" then "." else body
  }

  /** The segments that remain after removing empty ones, "." and every "name/.." pair. */
  function Keep(segments: seq<string>, kept: seq<string>, rooted: bool): seq<string>
    decreases |segments|
  {
    if segments == [] then kept
    else if segments[0] == "" || segments[0] == "." then Keep(segments[1..], kept, rooted)
    else if segments[0] != ".." then Keep(segments[1..], kept + [segments[0]], rooted)
    else if kept != [] && kept[|kept| - 1] != ".." then Keep(segments[1..], kept[..|kept| - 1], rooted)
    else if rooted then Keep(segments[1..], kept, rooted)
    else Keep(segments[1..], kept + [".."], rooted)
  }

  /** filepath.Join of two elements; empty elements are ignored. */
  function JoinPath(dir: string, file: string): string {
    if dir == "" && file == "" then ""
    else if dir == "" then Clean(file)
    else if file == "" then Clean(dir)
    else Clean(dir + "/" + file)
  }

  /** filepath.Dir. */
  function Dir(path: string): string {
    Clean(path[..LastSlash(path)])
  }

  /** The length of the part of a path that ends with its last slash. */
  function LastSlash(path: string): (n: nat)
    ensures n <= |path|
  {
    if path == "" || path[|path| - 1] == '/' then |path| else LastSlash(path[..|path| - 1])
  }

  // ----- A joined path ends like its file name -----

  predicate Ends(s: string, c: char) {
    s != "" && s[|s| - 1] == c
  }

  lemma {:induction false} LastPieceEnds(s: string, sep: char, c: char)
    requires Ends(s, c) && c != sep
    ensures var pieces := Split(s, sep); Ends(pieces[|pieces| - 1], c)
  {
    hide Split, Prepend;
    if |s| == 1 {
      SplitOfFree(s, sep);
    } else {
      LastPieceEnds(s[1..], sep, c);
      assert s == [s[0]] + s[1..];
      SplitStep(s[0], s[1..], sep);
      PrependEnds(s[0], Split(s[1..], sep), sep, c);
    }
  }

  lemma PrependEnds(first: char, pieces: seq<string>, sep: char, c: char)
    requires pieces != [] && Ends(pieces[|pieces| - 1], c)
    ensures var all := Prepend(first, pieces, sep); all != [] && Ends(all[|all| - 1], c)
  {
  }

  lemma {:induction false} JoinEnds(pieces: seq<string>, sep: char, c: char)
    requires pieces != [] && Ends(pieces[|pieces| - 1], c)
    ensures Ends(Join(pieces, sep), c)
  {
    if |pieces| > 1 {
      JoinEnds(pieces[1..], sep, c);
    }
  }

  lemma {:induction false} KeepEnds(segments: seq<string>, kept: seq<string>, rooted: bool, c: char)
    requires segments != [] && Ends(segments[|segments| - 1], c) && c != '.'
    ensures var r := Keep(segments, kept, rooted); r != [] && Ends(r[|r| - 1], c)
    decreases |segments|
  {
    var rest := segments[1..];
    if rest == [] {
      assert Keep(rest, kept + [segments[0]], rooted) == kept + [segments[0]];
    } else if segments[0] == "" || segments[0] == "." {
      KeepEnds(rest, kept, rooted, c);
    } else if segments[0] != ".." {
      KeepEnds(rest, kept + [segments[0]], rooted, c);
    } else if kept != [] && kept[|kept| - 1] != ".." {
      KeepEnds(rest, kept[..|kept| - 1], rooted, c);
    } else if rooted {
      KeepEnds(rest, kept, rooted, c);
    } else {
      KeepEnds(rest, kept + [".."], rooted, c);
    }
  }

  lemma JoinPathEnds(dir: string, file: string, c: char)
    requires Ends(file, c) && c != '/' && c != '.'
    ensures Ends(JoinPath(dir, file), c)
  {
    var path := if dir == "" then file else dir + "/" + file;
    LastPieceEnds(path, '/', c);
    KeepEnds(Split(path, '/'), [], Starts(path, '/'), c);
    JoinEnds(Keep(Split(path, '/'), [], Starts(path, '/')), '/', c);
  }

  // ----- A joined path has no characters of its own but slashes and dots -----

  lemma {:induction false} PiecesFree(s: string, sep: char, c: char)
    requires Free(s, c)
    ensures AllFree(Split(s, sep), c)
  {
    if s != "" {
      PiecesFree(s[1..], sep, c);
    }
  }

  lemma {:induction false} JoinFree(pieces: seq<string>, sep: char, c: char)
    requires AllFree(pieces, c) && c != sep
    ensures Free(Join(pieces, sep), c)
  {
    if |pieces| > 1 {
      JoinFree(pieces[1..], sep, c);
    }
  }

  lemma {:induction false} KeepFree(segments: seq<string>, kept: seq<string>, rooted: bool, c: char)
    requires AllFree(segments, c) && AllFree(kept, c) && c != '.'
    ensures AllFree(Keep(segments, kept, rooted), c)
    decreases |segments|
  {
    if segments != [] {
      var rest := segments[1..];
      if segments[0] == "" || segments[0] == "." {
        KeepFree(rest, kept, rooted, c);
      } else if segments[0] != ".." {
        KeepFree(rest, kept + [segments[0]], rooted, c);
      } else if kept != [] && kept[|kept| - 1] != ".." {
        KeepFree(rest, kept[..|kept| - 1], rooted, c);
      } else if rooted {
        KeepFree(rest, kept, rooted, c);
      } else {
        KeepFree(rest, kept + [".."], rooted, c);
      }
    }
  }

  lemma JoinPathFree(dir: string, file: string, c: char)
    requires Free(dir, c) && Free(file, c) && c != '/' && c != '.'
    ensures Free(JoinPath(dir, file), c)
  {
    var path := if dir == "" then file else if file == "" then dir else dir + "/" + file;
    PiecesFree(path, '/', c);
    KeepFree(Split(path, '/'), [], Starts(path, '/'), c);
    JoinFree(Keep(Split(path, '/'), [], Starts(path, '/')), '/', c);
  }

  // ----- Plain paths are joined and taken apart as written -----

  /** A segment that names something. */
  predicate PlainSegment(s: string) {
    s != "" && s != "." && s != ".." && Free(s, '/')
  }

  predicate PlainSegments(segments: seq<string>) {
    forall i :: 0 <= i < |segments| ==> PlainSegment(segments[i])
  }

  /** A path of segments, from the root or not. */
  function PathOf(rooted: bool, segments: seq<string>): string {
    (if rooted then "/" else "") + Join(segments, '/')
  }

  lemma {:induction false} KeepPlain(segments: seq<string>, kept: seq<string>, rooted: bool)
    requires PlainSegments(segments)
    ensures Keep(segments, kept, rooted) == kept + segments
    ensures Keep(segments + [""], kept, rooted) == kept + segments
    decreases |segments|
  {
    if segments == [] {
      assert [""][1..] == [] && segments + [""] == [""];
    } else {
      KeepPlain(segments[1..], kept + [segments[0]], rooted);
      assert (segments + [""])[1..] == segments[1..] + [""];
      assert segments == [segments[0]] + segments[1..];
    }
  }

  lemma {:induction false} JoinLast(segments: seq<string>, last: string)
    requires segments != []
    ensures Join(segments + [last], '/') == Join(segments, '/') + "/" + last
  {
    if |segments| > 1 {
      JoinLast(segments[1..], last);
      assert (segments + [last])[1..] == segments[1..] + [last];
    }
  }

  lemma JoinStarts(segments: seq<string>)
    requires segments != [] && PlainSegments(segments)
    ensures Join(segments, '/') != "" && !Starts(Join(segments, '/'), '/')
  {
    assert PlainSegment(segments[0]);
    assert segments[0][0] != '/';
  }

  lemma PiecesOfPath(rooted: bool, segments: seq<string>)
    requires segments != [] && forall i :: 0 <= i < |segments| ==> Free(segments[i], '/')
    ensures Split(PathOf(rooted, segments), '/') == (if rooted then [""] else []) + segments
  {
    SplitJoin(segments, '/');
    if rooted {
      SplitStep('/', Join(segments, '/'), '/');
    } else {
      assert PathOf(false, segments) == Join(segments, '/');
    }
  }

  /** Cleaning leaves a plain path alone, and drops a slash behind it. */
  lemma CleanPlain(rooted: bool, segments: seq<string>)
    requires segments != [] && PlainSegments(segments)
    ensures Clean(PathOf(rooted, segments)) == PathOf(rooted, segments)
    ensures Clean(PathOf(rooted, segments) + "/") == PathOf(rooted, segments)
  {
    hide Split, Join, Keep;
    PiecesOfPath(rooted, segments);
    JoinStarts(segments);
    KeepPlain(segments, [], rooted);
    JoinLast(segments, "");
    PiecesOfPath(rooted, segments + [""]);
    assert PathOf(rooted, segments) + "/" == PathOf(rooted, segments + [""]);
    if rooted {
      RootDropped(segments);
      RootDropped(segments + [""]);
    } else {
      assert [] + segments == segments && [] + (segments + [""]) == segments + [""];
    }
    assert [] + segments == segments;
  }

  lemma RootDropped(segments: seq<string>)
    ensures Keep([""] + segments, [], true) == Keep(segments, [], true)
  {
    assert ([""] + segments)[1..] == segments;
  }

  /** filepath.Join of a plain directory and a plain file. */
  lemma JoinPathPlain(rooted: bool, segments: seq<string>, file: string)
    requires segments != [] && PlainSegments(segments) && PlainSegment(file)
    ensures JoinPath(PathOf(rooted, segments), file) == PathOf(rooted, segments) + "/" + file
  {
    hide Clean, Join;
    JoinStarts(segments);
    JoinLast(segments, file);
    CleanPlain(rooted, segments + [file]);
    assert PathOf(rooted, segments) + "/" + file == PathOf(rooted, segments + [file]);
  }

  lemma {:induction false} LastSlashAt(front: string, base: string)
    requires Free(base, '/')
    ensures LastSlash(front + "/" + base) == |front| + 1
  {
    var path := front + "/" + base;
    if base == "" {
      assert path[|path| - 1] == '/';
    } else {
      assert path[|path| - 1] == base[|base| - 1];
      LastSlashAt(front, base[..|base| - 1]);
      assert path[..|path| - 1] == front + "/" + base[..|base| - 1];
    }
  }

  /** filepath.Dir of a file in a plain directory. */
  lemma DirPlain(rooted: bool, segments: seq<string>, base: string)
    requires segments != [] && PlainSegments(segments) && Free(base, '/')
    ensures Dir(PathOf(rooted, segments) + "/" + base) == PathOf(rooted, segments)
  {
    hide Clean, PathOf, LastSlash;
    var dir := PathOf(rooted, segments);
    LastSlashAt(dir, base);
    assert (dir + "/" + base)[..|dir| + 1] == dir + "/";
    CleanPlain(rooted, segments);
  }

  // ----- What cleaning leaves out -----

  lemma {:induction false} KeepConcat(a: seq<string>, b: seq<string>, kept: seq<string>, rooted: bool)
    ensures Keep(a + b, kept, rooted) == Keep(b, Keep(a, kept, rooted), rooted)
    decreases |a|
  {
    if a == [] {
      assert a + b == b;
    } else {
      var rest := a[1..];
      assert (a + b)[1..] == rest + b;
      if a[0] == "" || a[0] == "." {
        KeepConcat(rest, b, kept, rooted);
      } else if a[0] != ".." {
        KeepConcat(rest, b, kept + [a[0]], rooted);
      } else if kept != [] && kept[|kept| - 1] != ".." {
        KeepConcat(rest, b, kept[..|kept| - 1], rooted);
      } else if rooted {
        KeepConcat(rest, b, kept, rooted);
      } else {
        KeepConcat(rest, b, kept + [".."], rooted);
      }
    }
  }

  /** Empty segments and single dots are left out anywhere, a segment and the two dots behind it too, and two dots at the root. */
  lemma KeepLeavesOut(a: seq<string>, b: seq<string>, name: string, rooted: bool)
    requires PlainSegment(name)
    ensures Keep(a + ([""] + b), [], rooted) == Keep(a + b, [], rooted)
    ensures Keep(a + (["."] + b), [], rooted) == Keep(a + b, [], rooted)
    ensures Keep(a + ([name, ".."] + b), [], rooted) == Keep(a + b, [], rooted)
    ensures Keep([".."] + b, [], true) == Keep(b, [], true)
  {
    var kept := Keep(a, [], rooted);
    KeepConcat(a, b, [], rooted);
    KeepConcat(a, [""] + b, [], rooted);
    KeepConcat(a, ["."] + b, [], rooted);
    KeepConcat(a, [name, ".."] + b, [], rooted);
    assert ([""] + b)[1..] == b && (["."] + b)[1..] == b && ([".."] + b)[1..] == b;
    assert ([name, ".."] + b)[1..] == [".."] + b;
    assert (kept + [name])[..|kept|] == kept;
  }
}
