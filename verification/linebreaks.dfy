/** Line breaks in rendered texts: validation accepts them, some do no harm, and with others the file reads back
    differently. */
module LineBreaks {
  import opened Text
  import opened Sorting
  import opened Types
  import opened StanzaRenderer
  import opened Scan
  import opened Entries
  import opened ManagedBlock
  import opened BlockLaws

  /** A frontend name that hides an entry line behind a line break. */
  function HiddenEntry(head: string, payload: string): string {
    head + "\n" + (CONFIG_LINE + payload)
  }

  lemma HiddenLines(head: string, line: string)
    requires Free(head, '\n') && Free(line, '\n')
    ensures Split(Directive(FRONTEND, head + "\n" + line), '\n') == [Directive(FRONTEND, head), line]
  {
    var first := Directive(FRONTEND, head);
    assert Free(FRONTEND, '\n');
    DirectiveFree(FRONTEND, head);
    SplitConcat(first, line, '\n');
    SplitOfFree(first, '\n');
    SplitOfFree(line, '\n');
    assert Directive(FRONTEND, head + "\n" + line) == first + ['\n'] + line;
  }

  lemma EntryLineIsRead(prefix: string, payload: string)
    requires prefix != "" && !IsSpace(prefix[0]) && Trimmed(payload) && payload != ""
    ensures Trim(prefix + payload) == prefix + payload && !EntryOf(prefix + payload, prefix).NoEntry?
  {
    TrimOfTrimmed(prefix + payload);
    TrimOfTrimmed(payload);
    assert (prefix + payload)[|prefix|..] == payload;
  }

  /** The hidden line stands in front of every END line. */
  lemma HiddenLineShows(lines: seq<string>, rest: seq<string>, first: string, hidden: string)
    requires lines == [first, hidden] + rest && Mark(first) == Other && Mark(hidden) == Other && !ReadLine(hidden).NoEntry?
    ensures var n := Find(Tags(lines, Mark), End, 0); n <= |lines| && !Silent(lines[..n], ReadLine)
  {
    var tags := Tags(lines, Mark);
    assert tags[0] == Mark(lines[0]) && tags[1] == Mark(lines[1]);
    var n := Find(tags, End, 0);
    assert n != 0 && n != 1;
    assert lines[..n][1] == hidden;
  }

  lemma HiddenStanzas(c: Configuration, head: string, payload: string)
    requires Free(head, '\n') && Free(payload, '\n') && Trimmed(payload) && payload != ""
    requires c.frontendName == HiddenEntry(head, payload)
    ensures !Silent(VisibleStanzas([c]), ReadLine)
  {
    hide StanzaLines, ReadLine, Mark, Split, Canon;
    var line, stanza := CONFIG_LINE + payload, StanzaLines(NormalizeName(c));
    assert Free(CONFIG_LINE, '\n');
    OneStanza(c);
    HiddenLines(head, line);
    FirstStanzaLine(NormalizeName(c));
    SplitEachStep(stanza[0], stanza[1..], '\n');
    HiddenMarks(head, payload);
    HiddenLineShows(StanzaText([c]), SplitEach(stanza[1..], '\n'), Directive(FRONTEND, head), line);
  }

  lemma HiddenMarks(head: string, payload: string)
    requires Trimmed(payload) && payload != ""
    ensures Mark(Directive(FRONTEND, head)) == Other && Mark(CONFIG_LINE + payload) == Other
    ensures !ReadLine(CONFIG_LINE + payload).NoEntry?
  {
    EntryLineIsRead(CONFIG_LINE, payload);
    DirectiveIsVisible(FRONTEND, head);
    VisibleLine(Directive(FRONTEND, head));
    MarkersDiffer();
    assert HasPrefix(CONFIG_LINE + payload, CONFIG_LINE);
  }

  lemma FirstStanzaLine(c: Configuration)
    ensures
      var stanza := StanzaLines(c);
      stanza != [] && stanza[0] == Directive(FRONTEND, c.frontendName) && stanza == [stanza[0]] + stanza[1..]
  {
    hide Directive, Indent, BindValue, NormalizeWord, BackendLines;
  }

  /** The lines of a block with one entry. */
  lemma OneStanza(c: Configuration)
    ensures Canon([c]) == [NormalizeName(c)] && StanzaText([c]) == SplitEach(StanzaLines(NormalizeName(c)), '\n')
  {
    assert NormalizeNames([c]) == [NormalizeName(c)];
    SortSingle(NormalizeName(c));
    FlattenOne(NormalizeName(c), StanzaLines);
  }

  lemma FlattenOne<T>(x: T, f: T -> seq<string>)
    ensures Flatten([x], f) == f(x)
  {
    assert [x][..0] == [];
    assert [] + f(x) == f(x);
  }

  lemma SortSingle(d: Configuration)
    ensures SortBy([d], NameOf) == [d]
  {
    SortOfSorted([d], NameOf);
  }

  /** The law that safe requests keep fails for others: give any accepted configuration a frontend name with a line
      break and an entry line behind it. It is accepted still, and no file it is stored in reads back as it was written. */
  lemma LineBreaksBreakTheRoundTrip(base: string, dir: string, c: Configuration, v: Verdicts, head: string, payload: string)
    requires ValidConfiguration(c, v)
    requires Free(head, '\n') && Free(payload, '\n') && Trimmed(payload) && payload != ""
    ensures
      var d := c.(frontendName := HiddenEntry(head, payload));
      var stored := EnsurePath(Normalize(d), dir);
      && ValidConfiguration(d, v)
      && Merge(base, [stored]).Some? && ManagedBlock.Load(Merge(base, [stored]).value) != Some(Canon([stored]))
  {
    hide Merge, ManagedBlock.Load, ValidConfiguration, HiddenEntry, Renderable, Silent, Canon;
    var d := c.(frontendName := HiddenEntry(head, payload));
    var stored := EnsurePath(Normalize(d), dir);
    HiddenNameIsVisible(head, payload);
    FrontendNameOnlyVisible(c, v, HiddenEntry(head, payload));
    NormalizeKeepsValid(d, v);
    ValidBecomesRenderable(Normalize(d), v, dir);
    assert [stored][0] == stored;
    HiddenStanzas(stored, head, payload);
    MergeLoadIff(base, [stored]);
  }

  /** Not every line break does harm: the second line of this frontend name shows something other than a comment. */
  lemma LineBreaksCanBeHarmless(c: Configuration, head: string, tail: string)
    requires Plain(c) && Free(head, '\n') && Free(tail, '\n') && Visible(tail)
    ensures
      var d := c.(frontendName := head + "\n" + tail);
      Harmless(d) && !Plain(d)
  {
    hide StanzaLines, HarmlessLines, Mark, ReadLine, Split, Visible;
    var d := c.(frontendName := head + "\n" + tail);
    assert d.frontendName[|head|] == '\n';
    FirstStanzaLine(c);
    FirstStanzaLine(d);
    var rest := StanzaLines(d)[1..];
    SameRest(c, d);
    PlainIsHarmless(c);
    SplitEachStep(StanzaLines(c)[0], rest, '\n');
    HarmlessConcat(Split(StanzaLines(c)[0], '\n'), SplitEach(rest, '\n'));
    SplitEachStep(StanzaLines(d)[0], rest, '\n');
    HiddenLines(head, tail);
    HarmlessConcat([Directive(FRONTEND, head), tail], SplitEach(rest, '\n'));
    DirectiveIsVisible(FRONTEND, head);
    VisibleTwo(Directive(FRONTEND, head), tail);
  }

  lemma VisibleTwo(a: string, b: string)
    requires Visible(a) && Visible(b)
    ensures HarmlessLines([a, b])
  {
    hide Mark, ReadLine, Visible;
    VisibleLine(a);
    VisibleLine(b);
  }

  lemma SameRest(c: Configuration, d: Configuration)
    requires d == c.(frontendName := d.frontendName)
    ensures StanzaLines(c) != [] && StanzaLines(d) != [] && StanzaLines(d)[1..] == StanzaLines(c)[1..]
  {
    hide Directive, Indent, Trim, NormalizeWord, ServerLines;
    assert FrontendLines(c)[1..] == FrontendLines(d)[1..];
    TailOfConcat(FrontendLines(c), BackendLines(c));
    TailOfConcat(FrontendLines(d), BackendLines(d));
  }

  lemma TailOfConcat<T>(a: seq<T>, b: seq<T>)
    requires a != []
    ensures (a + b)[1..] == a[1..] + b
  {
  }

  /** All that validation asks of a frontend name is that it is not blank. */
  lemma FrontendNameOnlyVisible(c: Configuration, v: Verdicts, name: string)
    requires ValidConfiguration(c, v)
    ensures ValidConfiguration(c.(frontendName := name), v) <==> !Blank(name)
  {
  }

  lemma HiddenNameIsVisible(head: string, payload: string)
    requires payload != "" && Trimmed(payload)
    ensures !Blank(HiddenEntry(head, payload))
  {
    EndsVisibly(HiddenEntry(head, payload));
  }
}
