/** The laws of a block of entries and stanzas inside a larger text, for every lawful way of writing and reading lines. */
module BlockFormat {
  import opened Text
  import opened Scan
  import opened Entries

  /** How markers and entries are written, and what the scan and the reader make of a line. */
  datatype Format<!C> = Format(
    start: string,
    end: string,
    write: C -> string,
    mark: Marking,
    read: string -> Entry<C>)

  /** Markers are recognised, entries are read back, and neither can be taken for the other. */
  ghost predicate Lawful<C(!new)>(f: Format<C>) {
    && f.mark(f.start) == Begin && f.mark(f.end) == End && f.mark("") == Other
    && f.read(f.start).NoEntry? && f.read("").NoEntry?
    && Free(f.start, '\n') && Free(f.end, '\n')
    && forall c :: f.mark(f.write(c)) == Other && f.read(f.write(c)) == Entry(c) && Free(f.write(c), '\n')
  }

  function EntryLines<C>(cs: seq<C>, write: C -> string): seq<string> {
    if cs == [] then [] else EntryLines(cs[..|cs| - 1], write) + [write(cs[|cs| - 1])]
  }

  /** A block before its lines are joined; a stanza line may itself contain line breaks. */
  function BlockLines<C>(cs: seq<C>, stanzas: seq<string>, f: Format<C>): seq<string> {
    [f.start] + EntryLines(cs, f.write) + stanzas + [f.end]
  }

  function BlockText<C>(cs: seq<C>, stanzas: seq<string>, f: Format<C>): string {
    Join(BlockLines(cs, stanzas, f), '\n')
  }

  /** The entries between the markers; a text without a complete block has none. */
  function LoadText<C>(content: string, f: Format<C>): Option<seq<C>> {
    Collect(Inner(content, f.mark), f.read)
  }

  // ----- The lines of a block -----

  lemma {:induction false} EntryLinesShape<C(!new)>(cs: seq<C>, f: Format<C>)
    requires Lawful(f)
    ensures
      var lines := EntryLines(cs, f.write);
      && |lines| == |cs| && AllFree(lines, '\n') && (forall i :: 0 <= i < |cs| ==> Tags(lines, f.mark)[i] == Other)
      && Collect(lines, f.read) == Some(cs)
  {
    if cs != [] {
      var front, last := cs[..|cs| - 1], cs[|cs| - 1];
      EntryLinesShape(front, f);
      CollectConcat(EntryLines(front, f.write), [f.write(last)], f.read);
      CollectOne(f.write(last), last, f.read);
      TagsConcat(EntryLines(front, f.write), [f.write(last)], f.mark);
      assert cs == front + [last];
    }
  }

  lemma BlockStructure<C(!new)>(cs: seq<C>, stanzas: seq<string>, f: Format<C>)
    requires Lawful(f)
    ensures
      Lines(BlockText(cs, stanzas, f)) ==
      [f.start] + EntryLines(cs, f.write) + SplitEach(stanzas, '\n') + [f.end]
  {
    var head, entries, tail := [f.start], EntryLines(cs, f.write), [f.end];
    EntryLinesShape(cs, f);
    SplitJoinEach(head + entries + stanzas + tail, '\n');
    SplitEachConcat(head + entries + stanzas, tail, '\n');
    SplitEachConcat(head + entries, stanzas, '\n');
    SplitEachConcat(head, entries, '\n');
    SplitEachOfFree(head, '\n');
    SplitEachOfFree(entries, '\n');
    SplitEachOfFree(tail, '\n');
  }

  lemma BlockIsBlock<C(!new)>(cs: seq<C>, stanzas: seq<string>, f: Format<C>)
    requires Lawful(f)
    ensures IsBlock(BlockText(cs, stanzas, f), f.mark)
  {
    BlockStructure(cs, stanzas, f);
  }

  /** The number of stanza lines in front of the first one that reads like the END line. */
  function StanzaEnd(stanzas: seq<string>, mark: Marking): (n: nat)
    ensures n <= |SplitEach(stanzas, '\n')|
  {
    Find(Tags(SplitEach(stanzas, '\n'), mark), End, 0)
  }

  /** No stanza line reads like the END line. */
  predicate CleanStanzas(stanzas: seq<string>, mark: Marking) {
    StanzaEnd(stanzas, mark) == |SplitEach(stanzas, '\n')|
  }

  lemma BlockFirstEnd<C(!new)>(cs: seq<C>, stanzas: seq<string>, f: Format<C>)
    requires Lawful(f) && IsBlock(BlockText(cs, stanzas, f), f.mark)
    ensures
      var block := BlockText(cs, stanzas, f);
      && |Lines(block)| == |cs| + |SplitEach(stanzas, '\n')| + 2
      && FirstEnd(block, f.mark) == 1 + |cs| + StanzaEnd(stanzas, f.mark)
      && (Clean(block, f.mark) <==> CleanStanzas(stanzas, f.mark))
  {
    var entries, lines := EntryLines(cs, f.write), SplitEach(stanzas, '\n');
    BlockStructure(cs, stanzas, f);
    EntryLinesShape(cs, f);
    TagsConcat([f.start] + entries + lines, [f.end], f.mark);
    TagsConcat([f.start] + entries, lines, f.mark);
    TagsConcat([f.start], entries, f.mark);
    EndOfFour(Tags([f.start], f.mark), Tags(entries, f.mark), Tags(lines, f.mark), Tags([f.end], f.mark));
  }

  lemma EndBehind(a: seq<Tag>, b: seq<Tag>)
    requires forall i :: 0 <= i < |a| ==> a[i] != End
    ensures Find(a + b, End, 0) == |a| + Find(b, End, 0)
  {
    var all, k := a + b, Find(b, End, 0);
    assert forall i :: 0 <= i < |b| ==> all[|a| + i] == b[i];
    forall j | 0 <= j < |a| + k ensures all[j] != End {
      if j >= |a| {
        assert all[j] == b[j - |a|];
      }
    }
    FindUnique(all, End, 0, |a| + k);
  }

  lemma EndAtLast(a: seq<Tag>)
    ensures Find(a + [End], End, 0) == Find(a, End, 0)
  {
    var k := Find(a, End, 0);
    assert forall j :: 0 <= j < k ==> (a + [End])[j] == a[j];
    FindUnique(a + [End], End, 0, k);
  }

  lemma EndOfFour(a: seq<Tag>, b: seq<Tag>, c: seq<Tag>, d: seq<Tag>)
    requires |a| == 1 && a[0] == Begin && (forall i :: 0 <= i < |b| ==> b[i] == Other) && |d| == 1 && d[0] == End
    ensures Find(a + b + c + d, End, 0) == 1 + |b| + Find(c, End, 0)
  {
    assert a + b + c + d == (a + b) + (c + d);
    EndBehind(a + b, c + d);
    assert d == [End];
    EndAtLast(c);
  }

  // ----- Framing and last write wins -----

  /** The next scan finds exactly the block just written if and only if no BEGIN line was left dangling
      and no stanza line reads like the END line. */
  lemma FramesIff<C(!new)>(base: string, cs: seq<C>, stanzas: seq<string>, f: Format<C>)
    requires Lawful(f)
    ensures
      var first := |Before(base, f.mark)|;
      ScanText(Splice(base, BlockText(cs, stanzas, f), f.mark), f.mark) ==
      Bounds(first, first + |cs| + |SplitEach(stanzas, '\n')| + 1) <==>
      !Dangling(base, f.mark) && CleanStanzas(stanzas, f.mark)
  {
    BlockIsBlock(cs, stanzas, f);
    BlockFirstEnd(cs, stanzas, f);
    FramedIff(base, BlockText(cs, stanzas, f), f.mark);
  }

  lemma SpliceCloses<C(!new)>(base: string, cs: seq<C>, stanzas: seq<string>, f: Format<C>)
    requires Lawful(f)
    ensures !Dangling(Splice(base, BlockText(cs, stanzas, f), f.mark), f.mark)
  {
    BlockIsBlock(cs, stanzas, f);
    SplicedBounds(base, BlockText(cs, stanzas, f), f.mark);
  }

  /** A second block forgets the first one completely if and only if no BEGIN line was dangling in the file
      and no stanza line of the first block reads like the END line. */
  lemma AbsorbsIff<C(!new)>(base: string, cs: seq<C>, stanzas: seq<string>, ds: seq<C>, stanzas': seq<string>,
                            f: Format<C>)
    requires Lawful(f)
    ensures
      var first, second := BlockText(cs, stanzas, f), BlockText(ds, stanzas', f);
      Splice(Splice(base, first, f.mark), second, f.mark) == Splice(base, second, f.mark) <==>
      !Dangling(base, f.mark) && CleanStanzas(stanzas, f.mark)
  {
    BlockIsBlock(cs, stanzas, f);
    BlockIsBlock(ds, stanzas', f);
    BlockFirstEnd(cs, stanzas, f);
    AbsorbIff(base, BlockText(cs, stanzas, f), BlockText(ds, stanzas', f), f.mark);
  }

  // ----- Round trip -----

  /** The lines behind a dangling BEGIN line; they end up inside the block that the next scan finds. */
  function DanglingLines(base: string, mark: Marking): seq<string> {
    if Dangling(base, mark) then Lines(base)[ScanText(base, mark).start + 1..] else []
  }

  /** The scanned span of a spliced text: the entries, between what was dangling and the stanzas. */
  lemma SplicedSpan<C(!new)>(base: string, cs: seq<C>, stanzas: seq<string>, f: Format<C>)
    requires Lawful(f)
    ensures
      var before, s := Before(base, f.mark), FirstStart(base, f.mark);
      && s <= |before|
      && Inner(Splice(base, BlockText(cs, stanzas, f), f.mark), f.mark) ==
         (if s < |before| then before[s + 1..] + [f.start] else []) + EntryLines(cs, f.write)
         + SplitEach(stanzas, '\n')[..StanzaEnd(stanzas, f.mark)]
  {
    hide Splice, Before, After, Inner, FirstStart, BlockText, SplitEach, Tags, OpenAt;
    BlockIsBlock(cs, stanzas, f);
    BlockFirstEnd(cs, stanzas, f);
    SplicedInner(base, BlockText(cs, stanzas, f), f.mark);
    BlockStructure(cs, stanzas, f);
    EntryLinesShape(cs, f);
    BeforeTags(base, f.mark);
    InnerLines(Before(base, f.mark), f.start, EntryLines(cs, f.write), SplitEach(stanzas, '\n'), f.end,
               After(base, f.mark), FirstStart(base, f.mark), StanzaEnd(stanzas, f.mark));
  }

  lemma InnerLines(before: seq<string>, h: string, entries: seq<string>, stanzas: seq<string>, t: string,
                   after: seq<string>, s: nat, k: nat)
    requires s <= |before| && k <= |stanzas|
    ensures
      var all := before + ([h] + entries + stanzas + [t]) + after;
      all[s + 1..|before| + 1 + |entries| + k] ==
      (if s < |before| then before[s + 1..] + [h] else []) + entries + stanzas[..k]
  {
  }

  /** Reading back a spliced text gives the entries written if and only if no other line inside the scanned span is an
      entry: none behind a dangling BEGIN line, none among the stanza lines up to the first END line. */
  lemma RoundTripIff<C(!new)>(base: string, cs: seq<C>, stanzas: seq<string>, f: Format<C>)
    requires Lawful(f)
    ensures
      LoadText(Splice(base, BlockText(cs, stanzas, f), f.mark), f) == Some(cs) <==>
      && Silent(DanglingLines(base, f.mark), f.read)
      && Silent(SplitEach(stanzas, '\n')[..StanzaEnd(stanzas, f.mark)], f.read)
  {
    var before, s := Before(base, f.mark), FirstStart(base, f.mark);
    BeforeTags(base, f.mark);
    SplicedSpan(base, cs, stanzas, f);
    EntryLinesShape(cs, f);
    var front := if s < |before| then before[s + 1..] + [f.start] else [];
    SurroundedIff(front, EntryLines(cs, f.write), SplitEach(stanzas, '\n')[..StanzaEnd(stanzas, f.mark)], f.read, cs);
    if Dangling(base, f.mark) {
      DanglingSilence(base, f);
      SilentConcat(before[s + 1..], [f.start], f.read);
    }
  }

  /** Cutting trailing empty lines does not change whether there is an entry behind a dangling BEGIN line. */
  lemma DanglingSilence<C(!new)>(base: string, f: Format<C>)
    requires Lawful(f) && Dangling(base, f.mark)
    ensures
      var before, s := Before(base, f.mark), FirstStart(base, f.mark);
      s < |before| && (Silent(before[s + 1..], f.read) <==> Silent(DanglingLines(base, f.mark), f.read))
  {
    var kept, lines, s := Lines(TrimRightChar(base, '\n')), Lines(base), FirstStart(base, f.mark);
    BeforeTags(base, f.mark);
    TrimmedLines(base);
    assert f.mark(lines[s]) == Begin by {
      assert Tags(lines, f.mark)[s] == Begin;
    }
    TailSilence(lines, |kept|, s, f.read);
    assert Before(base, f.mark)[s + 1..] == lines[s + 1..|kept|] + [""];
  }

  lemma TailSilence<C>(lines: seq<string>, k: nat, s: nat, read: string -> Entry<C>)
    requires s < k <= |lines| && read("").NoEntry? && forall i :: k <= i < |lines| ==> lines[i] == ""
    ensures Silent(lines[s + 1..k] + [""], read) <==> Silent(lines[s + 1..], read)
  {
    assert lines[s + 1..] == lines[s + 1..k] + lines[k..];
    SilentConcat(lines[s + 1..k], lines[k..], read);
    SilentConcat(lines[s + 1..k], [""], read);
  }
}
