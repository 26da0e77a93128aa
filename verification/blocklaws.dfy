/** The laws of the managed block: framing, last write wins, round trip, order independence. */
module BlockLaws {
  import opened Text
  import opened Types
  import opened StanzaRenderer
  import opened Scan
  import opened Entries
  import opened BlockFormat
  import opened Sorting
  import opened ManagedBlock
  import Codec

  // ----- The format is lawful -----

  lemma MarkersDiffer()
    ensures BLOCK_START != BLOCK_END
    ensures !HasPrefix(BLOCK_START, CONFIG_LINE) && !HasPrefix(BLOCK_END, CONFIG_LINE)
  {
    assert BLOCK_START[2] == 'B' && BLOCK_END[2] == 'E' && CONFIG_LINE[2] == 'L';
  }

  lemma MarkersAreTrimmed()
    ensures Trim(BLOCK_START) == BLOCK_START && Trim(BLOCK_END) == BLOCK_END && Trim("") == ""
  {
    TrimOfTrimmed(BLOCK_START);
    TrimOfTrimmed(BLOCK_END);
  }

  lemma MarkersAreFree()
    ensures Free(BLOCK_START, '\n') && Free(BLOCK_END, '\n')
  {
  }

  /** An entry line, with the literal texts abstracted: it is its own trimmed form and keeps its payload. */
  lemma EntryText(prefix: string, payload: string, c: Configuration)
    requires prefix != "" && !IsSpace(prefix[0]) && Trimmed(payload) && payload != "" && Codec.Decode(payload) == Some(c)
    ensures Trim(prefix + payload) == prefix + payload && EntryOf(prefix + payload, prefix) == Entry(c)
  {
    var line := prefix + payload;
    TrimOfTrimmed(line);
    TrimOfTrimmed(payload);
    assert line[|prefix|..] == payload;
  }

  lemma EntryIsLawful(c: Configuration)
    ensures Mark(ConfigLine(c)) == Other && ReadLine(ConfigLine(c)) == Entry(c) && Free(ConfigLine(c), '\n')
  {
    hide Codec.Encode, Codec.Decode;
    var payload := Codec.Encode(c);
    Codec.EncodedShape(c);
    Codec.RoundTrip(c);
    EntryText(CONFIG_LINE, payload, c);
    assert Free(CONFIG_LINE, '\n');
    MarkersDiffer();
    assert HasPrefix(ConfigLine(c), CONFIG_LINE);
  }

  lemma FormatIsLawful()
    ensures Lawful(FORMAT)
  {
    MarkersDiffer();
    MarkersAreTrimmed();
    MarkersAreFree();
    forall c: Configuration
      ensures Mark(ConfigLine(c)) == Other && ReadLine(ConfigLine(c)) == Entry(c) && Free(ConfigLine(c), '\n')
    {
      EntryIsLawful(c);
    }
  }

  // ----- Canonical lists -----

  /** The canonical list consists of the normalised elements. */
  lemma CanonElements(cs: seq<Configuration>)
    ensures forall c :: c in Canon(cs) <==> c in NormalizeNames(cs)
  {
    SortKeepsElements(NormalizeNames(cs), NameOf);
  }

  /** A property that does not look at the trimming of names holds throughout the canonical list if and only if it holds
      throughout the list. */
  lemma CanonKeeps(cs: seq<Configuration>, p: Configuration -> bool)
    requires forall c {:trigger p(c)} :: p(NormalizeName(c)) <==> p(c)
    ensures All(Canon(cs), p) <==> All(cs, p)
  {
    hide Canon, NormalizeName;
    CanonElements(cs);
    if All(cs, p) {
      forall i | 0 <= i < |Canon(cs)| ensures p(Canon(cs)[i]) {
        assert Canon(cs)[i] in NormalizeNames(cs);
        var j :| 0 <= j < |cs| && NormalizeNames(cs)[j] == Canon(cs)[i];
        assert p(cs[j]);
      }
    } else {
      var j :| 0 <= j < |cs| && !p(cs[j]);
      assert NormalizeNames(cs)[j] in Canon(cs);
      var i :| 0 <= i < |Canon(cs)| && Canon(cs)[i] == NormalizeNames(cs)[j];
    }
  }

  lemma RenderableCanon(cs: seq<Configuration>)
    ensures AllRenderable(Canon(cs)) <==> AllRenderable(cs)
  {
    hide Canon;
    assert forall c :: Renderable(NormalizeName(c)) <==> Renderable(c);
    CanonKeeps(cs, Renderable);
  }

  /** A merge succeeds exactly when every configuration of the list can be rendered, whatever the file holds. */
  lemma MergeSucceedsIff(base: string, cs: seq<Configuration>)
    ensures Merge(base, cs).Some? <==> AllRenderable(cs)
  {
    hide AllRenderable, Canon, BlockText, Splice, Stanzas;
    RenderableCanon(cs);
  }

  predicate AllPlain(cs: seq<Configuration>) {
    All(cs, Plain)
  }

  // ----- Framing -----

  /** The stanzas of a list as they appear in the file: a text with line breaks spreads over several lines. */
  function StanzaText(cs: seq<Configuration>): seq<string> {
    SplitEach(Stanzas(Canon(cs)), '\n')
  }

  /** No rendered line reads like the END line. */
  predicate NoInnerEnd(cs: seq<Configuration>) {
    CleanStanzas(Stanzas(Canon(cs)), Mark)
  }

  /** Whatever was in the file, its lines outside the block stay: all those before the first BEGIN and behind the first
      END after it, or, without a complete block, all up to trailing line breaks. The block stands between them. */
  lemma MergeKeepsOutside(base: string, cs: seq<Configuration>)
    requires AllRenderable(cs)
    ensures
      && Merge(base, cs).Some?
      && Lines(Merge(base, cs).value) ==
         Before(base, Mark)
         + ([BLOCK_START] + EntryLines(Canon(cs), ConfigLine) + StanzaText(cs) + [BLOCK_END])
         + After(base, Mark)
  {
    MergeSucceedsIff(base, cs);
    FormatIsLawful();
    SpliceLines(base, BlockText(Canon(cs), Stanzas(Canon(cs)), FORMAT), Mark);
    BlockStructure(Canon(cs), Stanzas(Canon(cs)), FORMAT);
  }

  /** The next scan finds exactly the block just written if and only if no BEGIN line was left dangling
      and no rendered line reads like the END line. */
  lemma MergeFramesIff(base: string, cs: seq<Configuration>)
    requires AllRenderable(cs)
    ensures
      var first := |Before(base, Mark)|;
      && Merge(base, cs).Some?
      && (ScanText(Merge(base, cs).value, Mark) == Bounds(first, first + |Canon(cs)| + |StanzaText(cs)| + 1) <==>
          !Dangling(base, Mark) && NoInnerEnd(cs))
  {
    hide AllRenderable, Canon, BlockText, Splice, Lawful;
    MergeSucceedsIff(base, cs);
    FormatIsLawful();
    FramesIff(base, Canon(cs), Stanzas(Canon(cs)), FORMAT);
  }

  /** What stands outside the block of the merged file is what stood outside before. */
  lemma OutsideStays(base: string, cs: seq<Configuration>)
    requires AllRenderable(cs) && !Dangling(base, Mark) && NoInnerEnd(cs)
    ensures
      && Merge(base, cs).Some?
      && Before(Merge(base, cs).value, Mark) == Before(base, Mark)
      && After(Merge(base, cs).value, Mark) == After(base, Mark)
  {
    MergeFramesIff(base, cs);
    MergeKeepsOutside(base, cs);
    var text, entries := Merge(base, cs).value, EntryLines(Canon(cs), ConfigLine);
    FormatIsLawful();
    EntryLinesShape(Canon(cs), FORMAT);
    hide Merge, Before, After, ScanText, StanzaText, Canon, EntryLines, Mark;
    assert |[BLOCK_START] + entries + StanzaText(cs) + [BLOCK_END]| == |Canon(cs)| + |StanzaText(cs)| + 2;
    OutsideOfBounds(text, Before(base, Mark), [BLOCK_START] + entries + StanzaText(cs) + [BLOCK_END], After(base, Mark));
  }

  lemma SlicesOfThree<T>(a: seq<T>, b: seq<T>, c: seq<T>)
    ensures (a + b + c)[..|a|] == a && (a + b + c)[|a| + |b|..] == c
  {
  }

  lemma OutsideOfBounds(text: string, a: seq<string>, b: seq<string>, c: seq<string>)
    requires |b| >= 2 && Lines(text) == a + b + c && ScanText(text, Mark) == Bounds(|a|, |a| + |b| - 1)
    ensures Before(text, Mark) == a && After(text, Mark) == c
  {
    SlicesOfThree(a, b, c);
  }

  /** A merge never leaves a dangling BEGIN line behind, not even where one was before. */
  lemma MergeCloses(base: string, cs: seq<Configuration>)
    requires AllRenderable(cs)
    ensures Merge(base, cs).Some? && !Dangling(Merge(base, cs).value, Mark)
  {
    MergeSucceedsIff(base, cs);
    FormatIsLawful();
    SpliceCloses(base, Canon(cs), Stanzas(Canon(cs)), FORMAT);
  }

  // ----- Last write wins -----

  /** Merging again forgets the first merge completely if and only if no BEGIN line was dangling in the file
      and no rendered line of the first list reads like the END line. */
  lemma MergeAbsorbsIff(base: string, cs: seq<Configuration>, ds: seq<Configuration>)
    requires AllRenderable(cs) && AllRenderable(ds)
    ensures
      && Merge(base, cs).Some? && Merge(base, ds).Some?
      && (Merge(Merge(base, cs).value, ds) == Merge(base, ds) <==> !Dangling(base, Mark) && NoInnerEnd(cs))
  {
    MergeSucceedsIff(base, cs);
    MergeSucceedsIff(base, ds);
    FormatIsLawful();
    AbsorbsIff(base, Canon(cs), Stanzas(Canon(cs)), Canon(ds), Stanzas(Canon(ds)), FORMAT);
  }

  // ----- Round trip -----

  /** The rendered lines the reader gets to see: those in front of the first one that reads like the END line. */
  function VisibleStanzas(cs: seq<Configuration>): seq<string> {
    StanzaText(cs)[..StanzaEnd(Stanzas(Canon(cs)), Mark)]
  }

  /** Reading back a merged file gives the canonical list if and only if no other line inside the scanned span is an
      entry line: none behind a dangling BEGIN line, none among the rendered lines up to the first END line. */
  lemma MergeLoadIff(base: string, cs: seq<Configuration>)
    requires AllRenderable(cs)
    ensures
      && Merge(base, cs).Some?
      && (Load(Merge(base, cs).value) == Some(Canon(cs)) <==>
          Silent(DanglingLines(base, Mark), ReadLine) && Silent(VisibleStanzas(cs), ReadLine))
  {
    MergeSucceedsIff(base, cs);
    FormatIsLawful();
    RoundTripIff(base, Canon(cs), Stanzas(Canon(cs)), FORMAT);
  }

  // ----- Plain configurations -----

  lemma VisibleLine(line: string)
    requires Visible(line)
    ensures Mark(line) == Other && ReadLine(line).NoEntry?
  {
    assert BLOCK_START[0] == '#' && BLOCK_END[0] == '#' && CONFIG_LINE[0] == '#';
  }

  /** No line of the text of its stanzas reads like the END line or like an entry. */
  predicate Harmless(c: Configuration) {
    HarmlessLines(SplitEach(StanzaLines(c), '\n'))
  }

  predicate HarmlessLines(lines: seq<string>) {
    forall i :: 0 <= i < |lines| ==> Mark(lines[i]) != End && ReadLine(lines[i]).NoEntry?
  }

  lemma HarmlessConcat(a: seq<string>, b: seq<string>)
    ensures HarmlessLines(a + b) <==> HarmlessLines(a) && HarmlessLines(b)
  {
    hide Mark, ReadLine;
    assert forall i :: 0 <= i < |a| ==> (a + b)[i] == a[i];
    assert forall i :: 0 <= i < |b| ==> (a + b)[|a| + i] == b[i];
  }

  lemma {:induction false} HarmlessStanzas(cs: seq<Configuration>)
    ensures HarmlessLines(SplitEach(Stanzas(cs), '\n')) <==> All(cs, Harmless)
  {
    hide HarmlessLines, StanzaLines;
    if cs == [] {
      NothingIsHarmless();
    } else {
      var front, last := cs[..|cs| - 1], cs[|cs| - 1];
      HarmlessStanzas(front);
      SplitEachConcat(Stanzas(front), StanzaLines(last), '\n');
      HarmlessConcat(SplitEach(Stanzas(front), '\n'), SplitEach(StanzaLines(last), '\n'));
      assert cs == front + [last];
    }
  }

  lemma NothingIsHarmless()
    ensures HarmlessLines([])
  {
  }

  lemma HarmlessCanon(cs: seq<Configuration>)
    ensures All(Canon(cs), Harmless) <==> All(cs, Harmless)
  {
    hide Canon;
    forall c ensures Harmless(NormalizeName(c)) <==> Harmless(c) {
      NameDoesNotShow(c);
    }
    CanonKeeps(cs, Harmless);
  }

  lemma NameDoesNotShow(c: Configuration)
    ensures StanzaLines(NormalizeName(c)) == StanzaLines(c)
  {
  }

  /** The scan stops behind the last line, and the reader sees only silent lines, exactly when no line is harmful. */
  lemma HarmlessIsClean(lines: seq<string>)
    ensures
      var n := Find(Tags(lines, Mark), End, 0);
      n == |lines| && Silent(lines[..n], ReadLine) <==> HarmlessLines(lines)
  {
    hide Mark, ReadLine;
    var tags := Tags(lines, Mark);
    var n := Find(tags, End, 0);
    assert forall i :: 0 <= i < |lines| ==> tags[i] == Mark(lines[i]);
    if n == |lines| {
      assert lines[..n] == lines;
    }
  }

  lemma HarmlessList(cs: seq<Configuration>)
    ensures All(cs, Harmless) <==> NoInnerEnd(cs) && Silent(VisibleStanzas(cs), ReadLine)
  {
    hide Canon, Harmless, HarmlessLines, Silent, Tags, Find;
    HarmlessCanon(cs);
    HarmlessStanzas(Canon(cs));
    HarmlessIsClean(StanzaText(cs));
  }

  /** The merged file holds a block that the next scan finds as it was written. */
  predicate Framed(base: string, cs: seq<Configuration>) {
    && Merge(base, cs).Some?
    && var first := |Before(base, Mark)|;
       ScanText(Merge(base, cs).value, Mark) == Bounds(first, first + |Canon(cs)| + |StanzaText(cs)| + 1)
  }

  /** Exactly the lists of harmless configurations are found again and read back, from any file without a dangling BEGIN
      line. */
  lemma HarmlessRoundTripIff(base: string, cs: seq<Configuration>)
    requires AllRenderable(cs) && !Dangling(base, Mark)
    ensures
      && Merge(base, cs).Some?
      && (Framed(base, cs) && Load(Merge(base, cs).value) == Some(Canon(cs)) <==> All(cs, Harmless))
  {
    hide Merge, Load, Canon, AllRenderable, Before, ScanText, StanzaText, NoInnerEnd, VisibleStanzas, ReadLine, Mark, Harmless;
    MergeFramesIff(base, cs);
    MergeLoadIff(base, cs);
    HarmlessList(cs);
    NothingDangles(base);
  }

  lemma NothingDangles(base: string)
    requires !Dangling(base, Mark)
    ensures Silent(DanglingLines(base, Mark), ReadLine)
  {
  }

  /** Without line breaks in the rendered fields, no stanza line can be taken for a marker or an entry. */
  lemma PlainIsHarmless(c: Configuration)
    requires Plain(c)
    ensures Harmless(c)
  {
    hide Plain, StanzaLines, Visible;
    PlainIffOneLineEach(c);
    StanzaIsVisible(c);
    SplitEachOfFree(StanzaLines(c), '\n');
    forall i | 0 <= i < |StanzaLines(c)| ensures Mark(StanzaLines(c)[i]) == Other && ReadLine(StanzaLines(c)[i]).NoEntry? {
      VisibleLine(StanzaLines(c)[i]);
    }
  }

  /** The round trip for plain lists into files without a dangling BEGIN line. */
  lemma PlainRoundTrip(base: string, cs: seq<Configuration>)
    requires AllRenderable(cs) && All(cs, Plain) && !Dangling(base, Mark)
    ensures Merge(base, cs).Some? && Load(Merge(base, cs).value) == Some(Canon(cs))
  {
    hide Plain, Harmless;
    forall i | 0 <= i < |cs| ensures Harmless(cs[i]) {
      PlainIsHarmless(cs[i]);
    }
    HarmlessRoundTripIff(base, cs);
  }

  // ----- Order independence -----

  /** The order of the list does not matter, as long as equal trimmed names mean equal configurations. */
  lemma OrderIndependent(cs: seq<Configuration>, ds: seq<Configuration>)
    requires multiset(cs) == multiset(ds)
    requires KeyDetermines(NormalizeNames(cs), NameOf)
    ensures Canon(cs) == Canon(ds) && Render(cs) == Render(ds)
  {
    NormalizePermutes(cs, ds);
    SortOfPermutation(NormalizeNames(cs), NormalizeNames(ds), NameOf);
  }

  lemma {:induction false} NormalizePermutes(cs: seq<Configuration>, ds: seq<Configuration>)
    requires multiset(cs) == multiset(ds)
    ensures multiset(NormalizeNames(cs)) == multiset(NormalizeNames(ds))
  {
    hide NormalizeName, NormalizeNames;
    if cs == [] {
      assert |ds| == |multiset(ds)| == 0;
      assert ds == [];
    } else {
      assert cs[0] in multiset(ds);
      var i :| 0 <= i < |ds| && ds[i] == cs[0];
      var a, b := ds[..i], ds[i + 1..];
      assert ds == a + [cs[0]] + b;
      RestPermutes(cs, a, b);
      NormalizePermutes(cs[1..], a + b);
      NormalizeAround(cs[1..], a, cs[0], b);
      assert cs == [cs[0]] + cs[1..];
    }
  }

  lemma RestPermutes<T>(xs: seq<T>, a: seq<T>, b: seq<T>)
    requires xs != [] && multiset(xs) == multiset(a + [xs[0]] + b)
    ensures multiset(xs[1..]) == multiset(a + b)
  {
    assert xs == [xs[0]] + xs[1..];
    assert multiset(xs[1..]) == multiset(xs) - multiset{xs[0]};
  }

  lemma NormalizeAround(rest: seq<Configuration>, a: seq<Configuration>, c: Configuration, b: seq<Configuration>)
    requires multiset(NormalizeNames(rest)) == multiset(NormalizeNames(a + b))
    ensures multiset(NormalizeNames([c] + rest)) == multiset(NormalizeNames(a + [c] + b))
  {
    NormalizeConcat([c], rest);
    NormalizeConcat(a + [c], b);
    NormalizeConcat(a, [c]);
    NormalizeConcat(a, b);
  }

  lemma NormalizeConcat(a: seq<Configuration>, b: seq<Configuration>)
    ensures NormalizeNames(a + b) == NormalizeNames(a) + NormalizeNames(b)
  {
  }

  /** Entries are written in strictly increasing name order, the stanzas in that same order. */
  lemma CanonIsStrict(cs: seq<Configuration>)
    requires Distinct(KeysOf(NormalizeNames(cs), NameOf))
    ensures StrictlySorted(Canon(cs), NameOf) && |Canon(cs)| == |cs|
  {
    SortSorts(NormalizeNames(cs), NameOf);
    SortDistinct(NormalizeNames(cs), NameOf);
    SortKeepsElements(NormalizeNames(cs), NameOf);
    DistinctIsStrict(Canon(cs), NameOf);
  }
}
