/** What trimming, lower-casing and comparing texts mean, character by character, without the functions that do it. */
module Meaning {
  import opened Text
  import opened Types
  import FilePath

  predicate Blanks(s: string) {
    forall i :: 0 <= i < |s| ==> IsSpace(s[i])
  }

  /** There is something to see in the text. */
  predicate Shows(s: string) {
    exists i :: 0 <= i < |s| && !IsSpace(s[i])
  }

  /** The text t is what is left of s without the blanks around it. */
  ghost predicate Core(s: string, t: string) {
    && (t != "" ==> !IsSpace(t[0]) && !IsSpace(t[|t| - 1]))
    && exists a: string, b: string :: Blanks(a) && Blanks(b) && s == a + t + b
  }

  /** The letter d is c, or its lower case. */
  predicate Small(c: char, d: char) {
    && !('A' <= d <= 'Z') && d != '\U{130}' && d != '\U{212A}'
    && (d == c || ('A' <= c <= 'Z' && d as int == c as int + 32) || (c == '\U{130}' && d == 'i') || (c == '\U{212A}' && d == 'k'))
  }

  /** The text s says the word w: up to the blanks around it, and up to case; w is in lower case. */
  ghost predicate Says(s: string, w: string) {
    exists t :: Core(s, t) && |t| == |w| && forall i :: 0 <= i < |w| ==> Small(t[i], w[i])
  }

  /** In front of b: b goes on where a ends, or the first character that differs is smaller. */
  ghost predicate ComesBefore(a: string, b: string) {
    exists n: nat ::
      && n <= |a| && n < |b| && a[..n] == b[..n]
      && (n < |a| ==> a[n] < b[n])
  }

  // ----- Trimming -----

  lemma {:induction false} TrimLeftBlanks(a: string, s: string)
    requires Blanks(a)
    ensures TrimSpaceLeft(a + s) == TrimSpaceLeft(s)
  {
    if a == "" {
      assert a + s == s;
    } else {
      TrimLeftBlanks(a[1..], s);
      assert (a + s)[1..] == a[1..] + s;
    }
  }

  lemma {:induction false} TrimRightBlanks(s: string, b: string)
    requires Blanks(b)
    ensures TrimSpaceRight(s + b) == TrimSpaceRight(s)
  {
    if b == "" {
      assert s + b == s;
    } else {
      var front := b[..|b| - 1];
      TrimRightBlanks(s, front);
      assert (s + b)[..|s + b| - 1] == s + front;
    }
  }

  lemma {:induction false} LeftParts(s: string) returns (a: string)
    ensures Blanks(a) && s == a + TrimSpaceLeft(s)
  {
    hide IsSpace;
    if s != "" && IsSpace(s[0]) {
      var rest := LeftParts(s[1..]);
      a := [s[0]] + rest;
      assert s == [s[0]] + s[1..];
    } else {
      a := "";
    }
  }

  lemma {:induction false} RightParts(s: string) returns (b: string)
    ensures Blanks(b) && s == TrimSpaceRight(s) + b
  {
    hide IsSpace;
    if s != "" && IsSpace(s[|s| - 1]) {
      var rest := RightParts(s[..|s| - 1]);
      b := rest + [s[|s| - 1]];
      assert s == s[..|s| - 1] + [s[|s| - 1]];
    } else {
      b := "";
    }
  }

  lemma TrimOfCore(a: string, t: string, b: string)
    requires Blanks(a) && Blanks(b) && (t != "" ==> !IsSpace(t[0]) && !IsSpace(t[|t| - 1]))
    ensures Trim(a + t + b) == t
  {
    assert a + t + b == a + (t + b);
    TrimLeftBlanks(a, t + b);
    if t == "" {
      assert t + b == b + "";
      TrimLeftBlanks(b, "");
    } else {
      assert TrimSpaceLeft(t + b) == t + b;
      TrimRightBlanks(t, b);
    }
  }

  lemma CoreOfTrim(s: string)
    ensures Core(s, Trim(s))
  {
    hide TrimSpaceLeft, TrimSpaceRight, Blanks, IsSpace;
    TrimIsTrimmed(s);
    var a := LeftParts(s);
    var b := RightParts(TrimSpaceLeft(s));
    assert s == a + Trim(s) + b;
  }

  /** strings.TrimSpace cuts off the blanks around a text, all of them and nothing else. */
  lemma TrimIff(s: string, t: string)
    ensures Core(s, t) <==> t == Trim(s)
  {
    hide Trim, Blanks, IsSpace;
    CoreOfTrim(s);
    if Core(s, t) {
      var a, b :| Blanks(a) && Blanks(b) && s == a + t + b;
      TrimOfCore(a, t, b);
    }
  }

  /** A text is blank after trimming if and only if nothing shows in it. */
  lemma BlankIff(s: string)
    ensures Blank(s) <==> !Shows(s)
  {
    TrimIff(s, "");
    if !Shows(s) {
      assert s == s + "" + "" && Blanks(s) && Blanks("");
    }
    if Core(s, "") {
      var a, b :| Blanks(a) && Blanks(b) && s == a + "" + b;
    }
  }

  // ----- Words -----

  lemma SmallIff(c: char, d: char)
    ensures Small(c, d) <==> d == LowerChar(c)
  {
  }

  /** Normalising a mode or a strategy gives the one word in lower case that the text says. */
  lemma NormalizeWordIff(s: string, w: string)
    ensures Says(s, w) <==> w == NormalizeWord(s)
  {
    hide Trim, Core, Small, LowerChar;
    forall t ensures Core(s, t) <==> t == Trim(s) {
      TrimIff(s, t);
    }
    forall c, d ensures Small(c, d) <==> d == LowerChar(c) {
      SmallIff(c, d);
    }
    var t := Trim(s);
    assert Core(s, t);
    if w == NormalizeWord(s) {
      assert forall i :: 0 <= i < |w| ==> Small(t[i], w[i]);
    }
  }

  // ----- Order -----

  lemma SameFirst(a: string, b: string, n: nat)
    ensures 0 < n <= |a| && n <= |b| && a[..n] == b[..n] ==> a[0] == b[0]
  {
    if 0 < n <= |a| && n <= |b| {
      assert a[..n][0] == a[0] && b[..n][0] == b[0];
    }
  }

  /** Go's order of strings is that of their first difference. */
  lemma {:induction false} LessIff(a: string, b: string)
    ensures Less(a, b) <==> ComesBefore(a, b)
    decreases |a|
  {
    if a != "" && b != "" && a[0] == b[0] {
      LessIff(a[1..], b[1..]);
      if Less(a[1..], b[1..]) {
        var n: nat :| n <= |a[1..]| && n < |b[1..]| && a[1..][..n] == b[1..][..n] && (n < |a[1..]| ==> a[1..][n] < b[1..][n]);
        assert a[..n + 1] == [a[0]] + a[1..][..n] && b[..n + 1] == [b[0]] + b[1..][..n];
      }
      if ComesBefore(a, b) {
        var n: nat :| n <= |a| && n < |b| && a[..n] == b[..n] && (n < |a| ==> a[n] < b[n]);
        assert n > 0;
        assert a[1..][..n - 1] == a[..n][1..] && b[1..][..n - 1] == b[..n][1..];
      }
    } else {
      if Less(a, b) {
        assert a[..0] == b[..0];
      }
      if ComesBefore(a, b) {
        var n: nat :| n <= |a| && n < |b| && a[..n] == b[..n] && (n < |a| ==> a[n] < b[n]);
        SameFirst(a, b, n);
      }
    }
  }

  // ----- Paths -----

  /** The certificates directory stands beside the file that the settings name. */
  lemma CertificatesBesideFile(rooted: bool, segments: seq<string>, base: string)
    requires segments != [] && FilePath.PlainSegments(segments) && Free(base, '/')
    ensures
      var dir := FilePath.PathOf(rooted, segments);
      CertificatesDirectory(dir + "/" + base) == dir + "/certificates"
  {
    hide FilePath.Dir, FilePath.JoinPath, FilePath.PathOf;
    FilePath.DirPlain(rooted, segments, base);
    assert FilePath.PlainSegment("certificates");
    FilePath.JoinPathPlain(rooted, segments, "certificates");
  }

  /** The name of a certificate file: that of the configuration in lower case, with underscores for spaces. */
  predicate FileNameFor(name: string, file: string) {
    |file| == |name| && forall i :: 0 <= i < |name| ==> if name[i] == ' ' then file[i] == '_' else Small(name[i], file[i])
  }

  lemma CertificateFileNamed(rooted: bool, segments: seq<string>, name: string) returns (file: string)
    requires segments != [] && FilePath.PlainSegments(segments) && Free(name, '/')
    ensures FileNameFor(name, file)
    ensures CertificateFile(FilePath.PathOf(rooted, segments), name) == FilePath.PathOf(rooted, segments) + "/" + file + ".pem"
  {
    hide FilePath.JoinPath, FilePath.PathOf, Small;
    file := Lower(ReplaceSpaces(name));
    forall i | 0 <= i < |name| ensures if name[i] == ' ' then file[i] == '_' else Small(name[i], file[i]) {
      SmallIff(name[i], file[i]);
    }
    var segment := file + ".pem";
    assert |segment| >= 4 && segment[|segment| - 1] == 'm';
    forall i | 0 <= i < |segment| ensures segment[i] != '/' {
      assert i < |file| ==> segment[i] == file[i] == LowerChar(ReplaceSpaces(name)[i]);
    }
    FilePath.JoinPathPlain(rooted, segments, segment);
    var dir := FilePath.PathOf(rooted, segments);
    assert dir + "/" + (file + ".pem") == dir + "/" + file + ".pem";
  }
}
