/** The managed block of an HAProxy configuration file: rendering, merging, reading back. */
module ManagedBlock {
  import opened Text
  import opened Types
  import opened StanzaRenderer
  import opened Scan
  import opened Entries
  import opened BlockFormat
  import opened Sorting
  import Codec

  const BLOCK_START := "# BEGIN LBM MANAGED CONFIGURATIONS"
  const BLOCK_END := "# END LBM MANAGED CONFIGURATIONS"
  const CONFIG_LINE := "# LBM_CONFIG "

  // ----- Single lines -----

  function MarkOf(trimmed: string, start: string, end: string): Tag {
    if trimmed == start then Begin else if trimmed == end then End else Other
  }

  function Mark(line: string): Tag {
    MarkOf(Trim(line), BLOCK_START, BLOCK_END)
  }

  function ConfigLine(c: Configuration): string {
    CONFIG_LINE + Codec.Encode(c)
  }

  function EntryOf(trimmed: string, prefix: string): Entry<Configuration> {
    if !HasPrefix(trimmed, prefix) then NoEntry
    else
      var payload := Trim(trimmed[|prefix|..]);
      if payload == "" then NoEntry
      else
        match Codec.Decode(payload)
        case Some(c) => Entry(c)
        case None => Unreadable
  }

  function ReadLine(line: string): Entry<Configuration> {
    EntryOf(Trim(line), CONFIG_LINE)
  }

  const FORMAT := Format(BLOCK_START, BLOCK_END, ConfigLine, Mark, ReadLine)

  // ----- Canonical lists -----

  function NormalizeName(c: Configuration): Configuration {
    c.(name := Key(c))
  }

  function NormalizeNames(cs: seq<Configuration>): (ns: seq<Configuration>)
    ensures |ns| == |cs| && forall i :: 0 <= i < |cs| ==> ns[i] == NormalizeName(cs[i])
  {
    seq(|cs|, i requires 0 <= i < |cs| => NormalizeName(cs[i]))
  }

  /** The form in which a list is written: names trimmed, ordered by name. */
  function Canon(cs: seq<Configuration>): seq<Configuration> {
    SortBy(NormalizeNames(cs), NameOf)
  }

  // ----- Rendering -----

  function Stanzas(cs: seq<Configuration>): seq<string> {
    Flatten(cs, StanzaLines)
  }

  predicate AllRenderable(cs: seq<Configuration>) {
    All(cs, Renderable)
  }

  /** RenderManagedBlock: one configuration that cannot be rendered fails the whole block. */
  function Render(cs: seq<Configuration>): Option<string> {
    if AllRenderable(Canon(cs)) then Some(BlockText(Canon(cs), Stanzas(Canon(cs)), FORMAT)) else None
  }

  method RenderManagedBlock(cs: seq<Configuration>) returns (block: Option<string>)
    ensures block == Render(cs)
  {
    var names := [];
    for i := 0 to |cs|
      invariant names == NormalizeNames(cs)[..i]
    {
      var cloned := cs[i];
      names := names + [cloned.(name := Trim(cloned.name))];
    }
    var buffer := new Configuration[|names|](i requires 0 <= i < |names| => names[i]);
    assert buffer[..] == NormalizeNames(cs);
    SortSlice(buffer, NameOf);
    var sorted := buffer[..];
    var lines := RenderLines(sorted);
    if lines.None? {
      return None;
    }
    return Some(Join(lines.value, '\n'));
  }

  /** The line buffer of the block: entries first, then the stanzas in the same order. */
  method RenderLines(sorted: seq<Configuration>) returns (lines: Option<seq<string>>)
    ensures lines == if AllRenderable(sorted) then Some(BlockLines(sorted, Stanzas(sorted), FORMAT)) else None
  {
    var entries := RenderEntries([BLOCK_START], sorted);
    lines := RenderStanzas(entries, sorted);
    if lines.Some? {
      lines := Some(lines.value + [BLOCK_END]);
    }
  }

  method RenderEntries(head: seq<string>, sorted: seq<Configuration>) returns (lines: seq<string>)
    ensures lines == head + EntryLines(sorted, ConfigLine)
  {
    lines := head;
    for i := 0 to |sorted|
      invariant lines == head + EntryLines(sorted[..i], ConfigLine)
    {
      assert sorted[..i + 1][..i] == sorted[..i];
      lines := lines + [ConfigLine(sorted[i])];
    }
    assert sorted[..|sorted|] == sorted;
  }

  method RenderStanzas(head: seq<string>, sorted: seq<Configuration>) returns (lines: Option<seq<string>>)
    ensures lines == if AllRenderable(sorted) then Some(head + Stanzas(sorted)) else None
  {
    var buffer := head;
    for i := 0 to |sorted|
      invariant AppendedUpTo(head, sorted, i, Renderable, StanzaLines, buffer)
    {
      var stanza := RenderStanza(sorted[i]);
      AppendStep(head, sorted, i, Renderable, StanzaLines, buffer);
      if stanza.None? {
        return None;
      }
      buffer := buffer + stanza.value;
    }
    assert sorted[..|sorted|] == sorted;
    return Some(buffer);
  }

  method RenderStanza(c: Configuration) returns (lines: Option<seq<string>>)
    ensures lines == if Renderable(c) then Some(StanzaLines(c)) else None
  {
    lines := RenderFrontendSection(c);
    if lines.Some? {
      var backend := RenderBackendSection(c);
      lines := Some(lines.value + backend);
    }
  }

  // ----- Merging -----

  /** MergeManagedBlock. */
  function Merge(base: string, cs: seq<Configuration>): Option<string> {
    var block :- Render(cs);
    Some(Splice(base, block, Mark))
  }

  method ManagedBlockBounds(content: string) returns (start: int, end: int, lines: seq<string>)
    ensures lines == Lines(content) && Bounds(start, end) == ScanText(content, Mark)
  {
    lines := Split(content, '\n');
    start, end := ScanLines(lines, Mark);
  }

  method MergeManagedBlock(base: string, cs: seq<Configuration>) returns (merged: Option<string>)
    ensures merged == Merge(base, cs)
  {
    var block := RenderManagedBlock(cs);
    if block.None? {
      return None;
    }
    var text := SpliceBlock(base, block.value);
    return Some(text);
  }

  method SpliceBlock(base: string, block: string) returns (text: string)
    ensures text == Splice(base, block, Mark)
  {
    hide Mark, Join;
    var start, end, lines := ManagedBlockBounds(base);
    if start != -1 && end != -1 && start < end {
      var replaced := lines[..start] + Split(block, '\n') + lines[end + 1..];
      return Join(replaced, '\n');
    }
    var trimmed := TrimRightChar(base, '\n');
    if trimmed == "" {
      return block + "\n";
    }
    return trimmed + "\n\n" + block + "\n";
  }

  // ----- Reading back -----

  /** The configurations a file holds; None when an entry cannot be decoded. */
  function Load(content: string): Option<seq<Configuration>> {
    LoadText(content, FORMAT)
  }

  method LoadConfigurations(content: string) returns (loaded: Option<seq<Configuration>>)
    ensures loaded == Load(content)
  {
    hide ReadLine, Mark;
    var start, end, lines := ManagedBlockBounds(content);
    if start == -1 || end == -1 || start >= end {
      return Some([]);
    }
    loaded := CollectLines(lines[start + 1..end], ReadLine);
  }
}
