/** Finding a marked block in a text and splicing a new block into it, whatever lines are taken for markers. */
module Scan {
  import opened Text

  /** What the scan sees of a line. */
  datatype Tag = Begin | End | Other

  type Marking = string -> Tag

  function Lines(text: string): (lines: seq<string>)
    ensures lines != []
  {
    Split(text, '\n')
  }

  function Tags(lines: seq<string>, mark: Marking): (tags: seq<Tag>)
    ensures |tags| == |lines| && forall i :: 0 <= i < |lines| ==> tags[i] == mark(lines[i])
  {
    seq(|lines|, i requires 0 <= i < |lines| => mark(lines[i]))
  }

  /** The first position from i on that carries the tag, or the length. */
  function Find(tags: seq<Tag>, tag: Tag, i: nat): (r: nat)
    requires i <= |tags|
    ensures i <= r <= |tags| && (r < |tags| ==> tags[r] == tag)
    ensures forall j :: i <= j < r ==> tags[j] != tag
    decreases |tags| - i
  {
    if i == |tags| || tags[i] == tag then i else Find(tags, tag, i + 1)
  }

  /** Line numbers of the block's first and last line; -1 stands for a line that is not there. */
  datatype Bounds = Bounds(start: int, end: int)

  /** The first BEGIN line and the first END line after it. */
  function BoundsOf(tags: seq<Tag>): (b: Bounds)
    ensures b.start == -1 || 0 <= b.start < |tags|
    ensures b.end == -1 || 0 <= b.start < b.end < |tags|
  {
    var s := Find(tags, Begin, 0);
    if s == |tags| then Bounds(-1, -1)
    else
      var e := Find(tags, End, s);
      Bounds(s, if e == |tags| then -1 else e)
  }

  function ScanText(content: string, mark: Marking): Bounds {
    BoundsOf(Tags(Lines(content), mark))
  }

  /** The lines between the first BEGIN and the first END after it. */
  function Inner(content: string, mark: Marking): seq<string> {
    var b := ScanText(content, mark);
    if Complete(b) then Lines(content)[b.start + 1..b.end] else []
  }

  predicate Complete(b: Bounds) {
    b.start != -1 && b.end != -1
  }

  /** The first BEGIN line of the text is not followed by an END line. */
  predicate Dangling(content: string, mark: Marking) {
    ScanText(content, mark).start != -1 && ScanText(content, mark).end == -1
  }

  lemma FindUnique(tags: seq<Tag>, tag: Tag, i: nat, r: nat)
    requires i <= r <= |tags| && (r < |tags| ==> tags[r] == tag) && forall j :: i <= j < r ==> tags[j] != tag
    ensures Find(tags, tag, i) == r
  {
    var f := Find(tags, tag, i);
    assert !(f < r) && !(r < f);
  }

  /** The scan loop: one pass that remembers the first BEGIN and the first END after it. */
  method ScanLines(lines: seq<string>, mark: Marking) returns (start: int, end: int)
    ensures Bounds(start, end) == BoundsOf(Tags(lines, mark))
  {
    start, end := -1, -1;
    ghost var tags := Tags(lines, mark);
    for i := 0 to |lines|
      invariant if start == -1 then end == -1 && (forall j :: 0 <= j < i ==> tags[j] != Begin)
                else 0 <= start < i && tags[start] == Begin && forall j :: 0 <= j < start ==> tags[j] != Begin
      invariant start != -1 && end == -1 ==> forall j :: start <= j < i ==> tags[j] != End
      invariant end != -1 ==> start < end < i && tags[end] == End && forall j :: start <= j < end ==> tags[j] != End
    {
      var tag := mark(lines[i]);
      assert tag == tags[i];
      if tag == Begin {
        if start == -1 {
          start := i;
        }
      } else if tag == End {
        if start != -1 && end == -1 {
          end := i;
        }
      }
    }
    FindUnique(tags, Begin, 0, if start == -1 then |tags| else start);
    if start != -1 {
      FindUnique(tags, End, start, if end == -1 then |tags| else end);
    }
  }

  // ----- Splicing -----

  /** Replaces the complete block of the base text, or appends the block behind the trimmed text. */
  function Splice(base: string, block: string, mark: Marking): string {
    var lines, b := Lines(base), ScanText(base, mark);
    if Complete(b) then Join(lines[..b.start] + Lines(block) + lines[b.end + 1..], '\n')
    else
      var trimmed := TrimRightChar(base, '\n');
      if trimmed == "" then block + "\n" else trimmed + "\n\n" + block + "\n"
  }

  /** The lines that stand in front of the new block. */
  function Before(base: string, mark: Marking): seq<string> {
    var lines, b := Lines(base), ScanText(base, mark);
    if Complete(b) then lines[..b.start]
    else
      var trimmed := TrimRightChar(base, '\n');
      if trimmed == "" then [] else Lines(trimmed) + [""]
  }

  /** The lines that stand behind the new block. */
  function After(base: string, mark: Marking): seq<string> {
    var lines, b := Lines(base), ScanText(base, mark);
    if Complete(b) then lines[b.end + 1..] else [""]
  }

  /** The lines of the spliced text. */
  function Around(base: string, block: string, mark: Marking): seq<string> {
    Before(base, mark) + Lines(block) + After(base, mark)
  }

  lemma SpliceLines(base: string, block: string, mark: Marking)
    ensures Lines(Splice(base, block, mark)) == Around(base, block, mark)
  {
    if Complete(ScanText(base, mark)) {
      ReplacedLines(base, block, mark);
    } else {
      var trimmed := TrimRightChar(base, '\n');
      if trimmed == "" {
        AppendLine(block);
        assert [] + Lines(block) == Lines(block);
      } else {
        AppendedLines(trimmed, block);
      }
    }
  }

  lemma ReplacedLines(base: string, block: string, mark: Marking)
    requires Complete(ScanText(base, mark))
    ensures Lines(Splice(base, block, mark)) == Around(base, block, mark)
  {
    SplitFree(base, '\n');
    SplitFree(block, '\n');
    SplitJoin(Around(base, block, mark), '\n');
  }

  lemma AppendedLines(text: string, block: string)
    ensures Lines(text + "\n\n" + block + "\n") == Lines(text) + [""] + Lines(block) + [""]
  {
    var last := block + "\n";
    var tail := "\n" + last;
    AppendLine(block);
    SplitConcat("", last, '\n');
    assert "" + ['\n'] + last == tail;
    SplitConcat(text, tail, '\n');
    assert text + ['\n'] + tail == text + "\n\n" + block + "\n";
    Rearrange(Lines(text), [""], Lines(block), [""]);
  }

  lemma AppendLine(text: string)
    ensures Lines(text + "\n") == Lines(text) + [""]
  {
    SplitConcat(text, "", '\n');
    assert text + ['\n'] + "" == text + "\n";
  }

  lemma Rearrange<T>(a: seq<T>, b: seq<T>, c: seq<T>, d: seq<T>)
    ensures a + (b + (c + d)) == (a + b) + c + d
  {
  }

  /** Trimming line breaks at the end of a text drops empty lines only. */
  lemma {:induction false} TrimmedLines(base: string)
    ensures
      var kept, lines := Lines(TrimRightChar(base, '\n')), Lines(base);
      |kept| <= |lines| && lines[..|kept|] == kept && forall i :: |kept| <= i < |lines| ==> lines[i] == ""
  {
    if base != "" && base[|base| - 1] == '\n' {
      var shorter := base[..|base| - 1];
      TrimmedLines(shorter);
      AppendLine(shorter);
      assert base == shorter + "\n";
    }
  }

  lemma TagsConcat(a: seq<string>, b: seq<string>, mark: Marking)
    ensures Tags(a + b, mark) == Tags(a, mark) + Tags(b, mark)
  {
  }

  /** Where the scan of the spliced text starts: at a BEGIN line left dangling in front of the block, or at the block. */
  function FirstStart(base: string, mark: Marking): nat {
    if Dangling(base, mark) then ScanText(base, mark).start else |Before(base, mark)|
  }

  /** Up to s no BEGIN, at s a BEGIN if there is such a line, from s on no END. */
  predicate OpenAt(tags: seq<Tag>, s: nat) {
    && s <= |tags| && (s < |tags| ==> tags[s] == Begin)
    && (forall i :: 0 <= i < s ==> tags[i] != Begin) && (forall i :: s <= i < |tags| ==> tags[i] != End)
  }

  lemma BeforeTags(base: string, mark: Marking)
    requires mark("") == Other
    ensures OpenAt(Tags(Before(base, mark), mark), FirstStart(base, mark))
    ensures FirstStart(base, mark) < |Before(base, mark)| <==> Dangling(base, mark)
  {
    var lines, b := Lines(base), ScanText(base, mark);
    if Complete(b) {
      assert forall i :: 0 <= i < b.start ==> Tags(lines[..b.start], mark)[i] == Tags(lines, mark)[i];
    } else {
      var kept := Lines(TrimRightChar(base, '\n'));
      TrimmedLines(base);
      assert lines == kept + lines[|kept|..];
      TagsConcat(kept, lines[|kept|..], mark);
      TagsConcat(kept, [""], mark);
      assert forall i :: 0 <= i < |lines| - |kept| ==> Tags(lines[|kept|..], mark)[i] == mark("");
      OpenTags(Tags(kept, mark), Tags(lines[|kept|..], mark), Tags([""], mark));
      EmptyTags(TrimRightChar(base, '\n'), mark);
    }
  }

  lemma EmptyTags(text: string, mark: Marking)
    requires mark("") == Other
    ensures text == "" ==> Tags(Lines(text), mark) == [Other]
  {
  }

  /** Exchanging the unmarked end of an incomplete text keeps what the scan finds. */
  lemma OpenTags(kept: seq<Tag>, rest: seq<Tag>, other: seq<Tag>)
    requires (forall i :: 0 <= i < |rest| ==> rest[i] == Other) && (forall i :: 0 <= i < |other| ==> other[i] == Other)
    requires !Complete(BoundsOf(kept + rest))
    ensures
      var b := BoundsOf(kept + rest);
      OpenAt(kept + other, if b.start == -1 then |kept + other| else b.start) && b.start < |kept|
  {
    var b, was, all := BoundsOf(kept + rest), kept + rest, kept + other;
    assert forall i :: 0 <= i < |kept| ==> was[i] == kept[i] && all[i] == kept[i];
    assert forall i :: |kept| <= i < |all| ==> all[i] == Other;
    assert forall i :: |kept| <= i < |was| ==> was[i] == Other;
  }

  // ----- What the next scan finds -----

  /** A text whose first line is a BEGIN line and whose last line is an END line. */
  predicate IsBlock(block: string, mark: Marking) {
    var lines := Lines(block);
    |lines| >= 2 && mark(lines[0]) == Begin && mark(lines[|lines| - 1]) == End
  }

  /** The number of the first END line of a block. */
  function FirstEnd(block: string, mark: Marking): (n: nat)
    requires IsBlock(block, mark)
    ensures 0 < n < |Lines(block)|
  {
    var tags := Tags(Lines(block), mark);
    assert tags[|tags| - 1] == End;
    Find(tags, End, 0)
  }

  /** The only END line of the block is its last line. */
  predicate Clean(block: string, mark: Marking)
    requires IsBlock(block, mark)
  {
    FirstEnd(block, mark) == |Lines(block)| - 1
  }

  /** Scanning a spliced text finds the first start, and the first END line of the new block. */
  lemma SplicedBounds(base: string, block: string, mark: Marking)
    requires IsBlock(block, mark) && mark("") == Other
    ensures
      ScanText(Splice(base, block, mark), mark) ==
      Bounds(FirstStart(base, mark), |Before(base, mark)| + FirstEnd(block, mark))
  {
    var before, blockLines, after := Before(base, mark), Lines(block), After(base, mark);
    var s, f := FirstStart(base, mark), FirstEnd(block, mark);
    SpliceLines(base, block, mark);
    BeforeTags(base, mark);
    TagsConcat(before + blockLines, after, mark);
    TagsConcat(before, blockLines, mark);
    BoundsOfThree(Tags(before, mark), Tags(blockLines, mark), Tags(after, mark), s, f);
  }

  /** What the reader sees of a spliced text. */
  lemma SplicedInner(base: string, block: string, mark: Marking)
    requires IsBlock(block, mark) && mark("") == Other
    ensures
      var all, s, e := Around(base, block, mark), FirstStart(base, mark), |Before(base, mark)| + FirstEnd(block, mark);
      s < e < |all| && Inner(Splice(base, block, mark), mark) == all[s + 1..e]
  {
    hide Splice, Around, ScanText, FirstEnd, FirstStart;
    SplicedScan(base, block, mark);
  }

  lemma SplicedScan(base: string, block: string, mark: Marking)
    requires IsBlock(block, mark) && mark("") == Other
    ensures
      var text, s, e := Splice(base, block, mark), FirstStart(base, mark), |Before(base, mark)| + FirstEnd(block, mark);
      && s < e < |Around(base, block, mark)|
      && Lines(text) == Around(base, block, mark) && ScanText(text, mark) == Bounds(s, e)
  {
    SplicedBounds(base, block, mark);
    SpliceLines(base, block, mark);
  }

  lemma BoundsOfThree(a: seq<Tag>, b: seq<Tag>, c: seq<Tag>, s: nat, f: nat)
    requires OpenAt(a, s)
    requires b != [] && b[0] == Begin && 0 < f < |b| && f == Find(b, End, 0)
    ensures BoundsOf(a + b + c) == Bounds(s, |a| + f)
  {
    var all := a + b + c;
    assert forall i :: 0 <= i < |a| ==> all[i] == a[i];
    assert forall i :: 0 <= i < |b| ==> all[|a| + i] == b[i];
    FindUnique(all, Begin, 0, s);
    forall j | s <= j < |a| + f ensures all[j] != End {
      if j >= |a| {
        assert all[j] == b[j - |a|];
      }
    }
    FindUnique(all, End, s, |a| + f);
  }

  /** A fresh scan returns exactly the span of the new block if and only if
      no BEGIN line was dangling and no line inside the block is an END line. */
  lemma FramedIff(base: string, block: string, mark: Marking)
    requires IsBlock(block, mark) && mark("") == Other
    ensures
      ScanText(Splice(base, block, mark), mark) ==
      Bounds(|Before(base, mark)|, |Before(base, mark)| + |Lines(block)| - 1) <==>
      !Dangling(base, mark) && Clean(block, mark)
  {
    SplicedBounds(base, block, mark);
    BeforeTags(base, mark);
  }

  // ----- Last write wins -----

  /** Splicing over an earlier splice leaves no trace of it if and only if
      no BEGIN line was dangling and no line inside the earlier block is an END line. */
  lemma AbsorbIff(base: string, first: string, second: string, mark: Marking)
    requires IsBlock(first, mark) && IsBlock(second, mark) && mark("") == Other
    ensures
      Splice(Splice(base, first, mark), second, mark) == Splice(base, second, mark) <==>
      !Dangling(base, mark) && Clean(first, mark)
  {
    hide Splice, Before, After, OpenAt;
    var middle := Splice(base, first, mark);
    AroundSpliced(base, first, mark);
    SpliceLines(middle, second, mark);
    SpliceLines(base, second, mark);
    SameText(Splice(middle, second, mark), Splice(base, second, mark));
    BeforeTags(base, mark);
    AbsorbLines(Before(base, mark), Lines(first), After(base, mark), Lines(second),
                FirstStart(base, mark), FirstEnd(first, mark), mark);
  }

  /** What the next splice will keep of a spliced text. */
  lemma AroundSpliced(base: string, block: string, mark: Marking)
    requires IsBlock(block, mark) && mark("") == Other
    ensures
      var all, s := Around(base, block, mark), FirstStart(base, mark);
      var e := |Before(base, mark)| + FirstEnd(block, mark);
      && s <= e < |all|
      && Before(Splice(base, block, mark), mark) == all[..s] && After(Splice(base, block, mark), mark) == all[e + 1..]
  {
    hide Splice, Find, Tags, IsBlock;
    SplicedBounds(base, block, mark);
    SpliceLines(base, block, mark);
    BeforeTags(base, mark);
  }

  /** The lines of the previous law: b2 replaces what the scan finds in a + b1 + c, from line s to the END at e in b1. */
  lemma AbsorbLines(a: seq<string>, b1: seq<string>, c: seq<string>, b2: seq<string>, s: nat, e: nat, mark: Marking)
    requires OpenAt(Tags(a, mark), s) && 0 < e < |b1|
    requires |b2| >= 2 && mark(b2[0]) == Begin && mark(b2[|b2| - 1]) == End
    ensures
      var all := a + b1 + c;
      all[..s] + b2 + all[|a| + e + 1..] == a + b2 + c <==> s == |a| && e == |b1| - 1
  {
    var all := a + b1 + c;
    var front, rest := all[..s], all[|a| + e + 1..];
    if s == |a| {
      assert front == a;
      if e == |b1| - 1 {
        assert rest == c;
      } else {
        assert |front + b2 + rest| > |a + b2 + c|;
      }
    } else {
      var tags := Tags(b2, mark);
      assert tags[0] == Begin && tags[|b2| - 1] == End;
      ResidueShows(front, b2, rest, a, c, Find(tags, End, 0), mark);
    }
  }

  /** With a dangling BEGIN line in front, the second block moves up to it: its END line shows where none belongs. */
  lemma ResidueShows(front: seq<string>, block: seq<string>, rest: seq<string>, before: seq<string>, after: seq<string>,
                     f: nat, mark: Marking)
    requires |front| < |before| && 0 < f < |block|
    requires mark(block[f]) == End && forall i :: 0 <= i < f ==> Tags(block, mark)[i] != End
    requires forall i :: |front| <= i < |before| ==> Tags(before, mark)[i] != End
    ensures front + block + rest != before + block + after
  {
    var n := |front| + f;
    var twice, once := front + block + rest, before + block + after;
    assert twice[n] == block[f];
    if n < |before| {
      assert once[n] == before[n] && Tags(before, mark)[n] != End;
    } else {
      assert once[n] == block[n - |before|] && Tags(block, mark)[n - |before|] != End;
    }
  }

  lemma SameText(a: string, b: string)
    ensures a == b <==> Lines(a) == Lines(b)
  {
    JoinSplit(a, '\n');
    JoinSplit(b, '\n');
  }
}
