/** What merging does to a file, line by line, said without the scan and the splice. */
module MergeTexts {
  import opened Text
  import opened Types
  import opened Meaning
  import opened StanzaRenderer
  import opened Scan
  import opened Entries
  import opened BlockFormat
  import opened ManagedBlock
  import opened BlockLaws
  import Codec

  // ----- Single lines -----

  lemma MarkersAreDifferent(a: string, b: string)
    requires |a| > 2 && |b| > 2 && a[2] != b[2]
    ensures a != b
  {
  }

  /** A line is a marker if and only if, blanks around it apart, it is the text of the marker. */
  lemma MarkIff(line: string)
    ensures Mark(line) == Begin <==> Core(line, "# BEGIN LBM MANAGED CONFIGURATIONS")
    ensures Mark(line) == End <==> Core(line, "# END LBM MANAGED CONFIGURATIONS")
  {
    hide Trim, Core;
    TrimIff(line, "# BEGIN LBM MANAGED CONFIGURATIONS");
    TrimIff(line, "# END LBM MANAGED CONFIGURATIONS");
    MarkersAreDifferent(BLOCK_START, BLOCK_END);
  }

  /** What an entry line carries, blanks around it apart. */
  ghost predicate Carries(line: string, payload: string) {
    payload != "" && exists rest :: Core(line, "# LBM_CONFIG " + rest) && Core(rest, payload)
  }

  /** A line carries a payload if and only if the reader takes it for an entry, and it is the entry's JSON text. */
  lemma ReadLineIff(line: string, payload: string)
    ensures Carries(line, payload) ==>
              ReadLine(line) == match Codec.Decode(payload) case Some(c) => Entry(c) case None => Unreadable
    ensures ReadLine(line).NoEntry? <==> forall p :: !Carries(line, p)
  {
    hide Trim, Core, Codec.Decode, HasPrefix;
    forall s, t ensures Core(s, t) <==> t == Trim(s) {
      TrimIff(s, t);
    }
    CarriesIff(line, payload, CONFIG_LINE);
    var trimmed := Trim(line);
    if HasPrefix(trimmed, CONFIG_LINE) {
      PrefixIsFront(trimmed, CONFIG_LINE);
      CarriesIff(line, Trim(trimmed[|CONFIG_LINE|..]), CONFIG_LINE);
    }
    forall p | Carries(line, p) ensures !ReadLine(line).NoEntry? {
      CarriesIff(line, p, CONFIG_LINE);
    }
  }

  lemma PrefixIsFront(s: string, prefix: string)
    requires HasPrefix(s, prefix)
    ensures |prefix| <= |s| && s == prefix + s[|prefix|..]
  {
  }

  lemma CarriesIff(line: string, payload: string, prefix: string)
    requires prefix == "# LBM_CONFIG "
    ensures Carries(line, payload) <==>
            payload != "" && HasPrefix(Trim(line), prefix) && payload == Trim(Trim(line)[|prefix|..])
  {
    hide Trim, Core;
    forall s, t ensures Core(s, t) <==> t == Trim(s) {
      TrimIff(s, t);
    }
    if HasPrefix(Trim(line), prefix) {
      PrefixIsFront(Trim(line), prefix);
      assert Core(line, prefix + Trim(line)[|prefix|..]);
    }
    if rest :| Core(line, prefix + rest) && Core(rest, payload) {
      assert (prefix + rest)[|prefix|..] == rest;
    }
  }

  // ----- Merging -----

  /** A merge fails if and only if TLS is switched on for some configuration and no certificate path shows. */
  lemma MergeFailsIff(base: string, cs: seq<Configuration>)
    ensures
      Merge(base, cs).None? <==>
      exists i :: 0 <= i < |cs| && cs[i].tls.Some? && cs[i].tls.value.enabled && !Shows(cs[i].tls.value.certificatePath)
  {
    hide Merge, Shows, Blank;
    MergeSucceedsIff(base, cs);
    forall s ensures Blank(s) <==> !Shows(s) {
      BlankIff(s);
    }
  }

  /** The lines of a block: the markers around the entries and the stanzas, in name order both. */
  function NewBlock(cs: seq<Configuration>): seq<string> {
    [BLOCK_START] + EntryLines(Canon(cs), ConfigLine) + StanzaText(cs) + [BLOCK_END]
  }

  lemma FirstBlock(tags: seq<Tag>, n: nat, m: nat)
    requires n < m < |tags| && tags[n] == Begin && tags[m] == End
    requires (forall i :: 0 <= i < n ==> tags[i] != Begin) && (forall i :: n <= i < m ==> tags[i] != End)
    ensures BoundsOf(tags) == Bounds(n, m)
  {
    FindUnique(tags, Begin, 0, n);
    FindUnique(tags, End, n, m);
  }

  /** A file with a block: the new block takes the place of the old one, and every other line stays where it is. */
  lemma BlockIsReplaced(base: string, front: seq<string>, start: string, inner: seq<string>, end: string, behind: seq<string>,
                        cs: seq<Configuration>)
    requires Split(base, '\n') == front + ([start] + inner + [end]) + behind && AllRenderable(cs)
    requires (forall i :: 0 <= i < |front| ==> Mark(front[i]) != Begin) && Mark(start) == Begin
    requires (forall i :: 0 <= i < |inner| ==> Mark(inner[i]) != End) && Mark(end) == End
    ensures Merge(base, cs) == Some(Join(front + NewBlock(cs) + behind, '\n'))
  {
    hide Mark, Merge, AllRenderable, StanzaText, Canon, EntryLines, Split, Join;
    var lines := Lines(base);
    var tags, n, m := Tags(lines, Mark), |front|, |front| + 1 + |inner|;
    assert lines[n] == start && lines[m] == end;
    forall i | 0 <= i < m ensures i < n ==> tags[i] != Begin ensures n <= i ==> tags[i] != End {
      assert i < n ==> lines[i] == front[i];
      assert n < i ==> lines[i] == inner[i - n - 1];
    }
    FirstBlock(tags, n, m);
    assert lines[..n] == front && lines[m + 1..] == behind;
    MergedLines(base, cs);
  }

  /** No BEGIN line stands in front of an END line. */
  ghost predicate NoBlock(base: string) {
    var lines := Split(base, '\n');
    forall i, j :: 0 <= i < j < |lines| ==> !(Mark(lines[i]) == Begin && Mark(lines[j]) == End)
  }

  lemma NoBlockIff(base: string)
    ensures NoBlock(base) <==> !Complete(ScanText(base, Mark))
  {
    hide Mark;
    var lines, tags := Lines(base), Tags(Lines(base), Mark);
    var b := BoundsOf(tags);
    assert forall i :: 0 <= i < |lines| ==> tags[i] == Mark(lines[i]);
    if Complete(b) {
      assert Mark(lines[b.start]) == Begin && Mark(lines[b.end]) == End && b.start < b.end;
    }
  }

  /** A file without a block: the new one goes behind it, after a blank line; line breaks at the end of the file are not
      kept, and an empty file gets the block only. */
  lemma BlockIsAppended(base: string, text: string, breaks: string, cs: seq<Configuration>)
    requires base == text + breaks && NoBlock(base) && AllRenderable(cs)
    requires (forall i :: 0 <= i < |breaks| ==> breaks[i] == '\n') && (text != "" ==> text[|text| - 1] != '\n')
    ensures
      Merge(base, cs) == Some(Join(if text == "" then NewBlock(cs) + [""] else Split(text, '\n') + [""] + NewBlock(cs) + [""], '\n'))
  {
    hide Merge, AllRenderable, NewBlock, Before, After, Lines, NoBlock, Join, Split;
    OutsideOfNoBlock(base, text, breaks);
    MergedLines(base, cs);
    if text == "" {
      assert [] + NewBlock(cs) + [""] == NewBlock(cs) + [""];
    }
  }

  lemma OutsideOfNoBlock(base: string, text: string, breaks: string)
    requires base == text + breaks && NoBlock(base)
    requires (forall i :: 0 <= i < |breaks| ==> breaks[i] == '\n') && (text != "" ==> text[|text| - 1] != '\n')
    ensures Before(base, Mark) == (if text == "" then [] else Split(text, '\n') + [""]) && After(base, Mark) == [""]
  {
    hide Mark, ScanText, NoBlock, Split;
    NoBlockIff(base);
    TrimmedText(text, breaks);
  }

  lemma MergedLines(base: string, cs: seq<Configuration>)
    requires AllRenderable(cs)
    ensures Merge(base, cs) == Some(Join(Before(base, Mark) + NewBlock(cs) + After(base, Mark), '\n'))
  {
    hide Merge, AllRenderable, Before, After, Canon, EntryLines, StanzaText, Split, Join;
    MergeKeepsOutside(base, cs);
    JoinSplit(Merge(base, cs).value, '\n');
  }

  lemma {:induction false} TrimmedText(text: string, breaks: string)
    requires (forall i :: 0 <= i < |breaks| ==> breaks[i] == '\n') && (text != "" ==> text[|text| - 1] != '\n')
    ensures TrimRightChar(text + breaks, '\n') == text
  {
    if breaks == "" {
      assert text + breaks == text;
    } else {
      TrimmedText(text, breaks[..|breaks| - 1]);
      assert (text + breaks)[..|text + breaks| - 1] == text + breaks[..|breaks| - 1];
    }
  }

  // ----- The lines of the block -----

  /** The texts of a list are those of its parts, in their order. */
  lemma {:induction false} FlattenConcat<T>(a: seq<T>, b: seq<T>, f: T -> seq<string>)
    ensures Flatten(a + b, f) == Flatten(a, f) + Flatten(b, f)
    decreases |b|
  {
    if b == [] {
      assert a + b == a;
    } else {
      var front, last := b[..|b| - 1], b[|b| - 1];
      FlattenConcat(a, front, f);
      assert (a + b)[..|a + b| - 1] == a + front;
      Concat3(Flatten(a, f), Flatten(front, f), f(last));
    }
  }

  lemma {:induction false} EntryLineAt(cs: seq<Configuration>, i: nat)
    requires i < |cs|
    ensures |EntryLines(cs, ConfigLine)| == |cs| && EntryLines(cs, ConfigLine)[i] == "# LBM_CONFIG " + Codec.Encode(cs[i])
  {
    hide Codec.Encode;
    if |cs| > 1 {
      EntryLineAt(cs[..|cs| - 1], if i < |cs| - 1 then i else 0);
    }
  }

  /** In the block one entry line stands for every configuration, its JSON text behind the prefix; and the stanzas of the
      configurations follow each other in the same order. */
  lemma BlockHolds(cs: seq<Configuration>, a: seq<Configuration>, c: Configuration, b: seq<Configuration>)
    requires Canon(cs) == a + [c] + b
    ensures
      var block := NewBlock(cs);
      && |block| >= |Canon(cs)| + 2
      && block[0] == "# BEGIN LBM MANAGED CONFIGURATIONS" && block[|block| - 1] == "# END LBM MANAGED CONFIGURATIONS"
      && block[1 + |a|] == "# LBM_CONFIG " + Codec.Encode(c)
      && block[1 + |Canon(cs)|..|block| - 1] ==
         SplitEach(Stanzas(a), '\n') + SplitEach(StanzaLines(c), '\n') + SplitEach(Stanzas(b), '\n')
  {
    hide Canon, StanzaLines, SplitEach, EntryLines, Codec.Encode;
    var block, entries := NewBlock(cs), EntryLines(Canon(cs), ConfigLine);
    EntryLineAt(Canon(cs), |a|);
    assert block[1 + |a|] == entries[|a|];
    assert block[1 + |Canon(cs)|..|block| - 1] == StanzaText(cs);
    FlattenConcat(a + [c], b, StanzaLines);
    FlattenConcat(a, [c], StanzaLines);
    OneElement(c, StanzaLines);
    SplitEachConcat(Stanzas(a) + StanzaLines(c), Stanzas(b), '\n');
    SplitEachConcat(Stanzas(a), StanzaLines(c), '\n');
  }

  lemma OneElement<T>(x: T, f: T -> seq<string>)
    ensures Flatten([x], f) == f(x)
  {
    assert [x][..0] == [];
    assert [] + f(x) == f(x);
  }

  lemma StartIff(base: string)
    ensures
      var lines := Split(base, '\n');
      ScanText(base, Mark).start == -1 <==> forall i :: 0 <= i < |lines| ==> Mark(lines[i]) != Begin
  {
    hide Mark;
    var lines := Split(base, '\n');
    var tags := Tags(lines, Mark);
    assert ScanText(base, Mark) == BoundsOf(tags);
    forall i | 0 <= i < |lines| ensures tags[i] == Mark(lines[i]) {
    }
    var s := Find(tags, Begin, 0);
    if s == |tags| {
      assert forall i :: 0 <= i < |lines| ==> Mark(lines[i]) != Begin;
    } else {
      assert ScanText(base, Mark).start == s;
      assert Mark(lines[s]) == Begin;
      assert !forall i :: 0 <= i < |lines| ==> Mark(lines[i]) != Begin;
    }
  }

  /** A file is closed if and only if it has a complete block, or no BEGIN line at all. */
  lemma ClosedIff(base: string)
    ensures
      var lines := Split(base, '\n');
      !Dangling(base, Mark) <==> !NoBlock(base) || forall i :: 0 <= i < |lines| ==> Mark(lines[i]) != Begin
  {
    hide Mark, NoBlock, ScanText, Split;
    NoBlockIff(base);
    StartIff(base);
  }
}
