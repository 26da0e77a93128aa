/** Addresses survive: what the kernel prints is read as the address it printed, and shown so that it can be read back. */
module AddressLaws {
  import opened Text
  import opened Numbers
  import opened Addresses

  // ----- What the kernel prints -----

  function UpperHexDigit(n: nat): (c: char)
    requires n < 16
    ensures IsHex(c) && HexDigitValue(c) == n
  {
    if n < 10 then ('0' as int + n) as char else ('A' as int + n - 10) as char
  }

  /** %02X. */
  function KernelByte(b: byte): (s: string)
    ensures |s| == 2 && AllHex(s)
  {
    [UpperHexDigit(b / 16), UpperHexDigit(b % 16)]
  }

  /** %08X of four bytes of memory taken as a little-endian number: the last byte comes first. */
  function KernelWord(w: Word): (s: string)
    ensures |s| == 8 && AllHex(s)
  {
    KernelByte(w.b3) + KernelByte(w.b2) + KernelByte(w.b1) + KernelByte(w.b0)
  }

  function KernelWords(ws: seq<Word>): (s: string)
    ensures |s| == 8 * |ws| && AllHex(s)
  {
    if ws == [] then "" else KernelWord(ws[0]) + KernelWords(ws[1..])
  }

  /** %04X. */
  function KernelPort(port: nat): (s: string)
    requires port < 0x1_0000
    ensures |s| == 4 && AllHex(s)
  {
    KernelByte(port / 256) + KernelByte(port % 256)
  }

  function KernelAddress(ws: seq<Word>, port: nat): string
    requires port < 0x1_0000
  {
    KernelWords(ws) + ":" + KernelPort(port)
  }

  // ----- Reading the kernel's numbers -----

  lemma HexIsBelow(s: string)
    requires AllHex(s)
    ensures AllBelow(s, 16)
  {
  }

  /** One more byte in front of which n already stands. */
  lemma ByteValue(s: string, b: byte)
    ensures Value(s + KernelByte(b), 16) == Value(s, 16) * 256 + b
  {
    ValuePair(s, UpperHexDigit(b / 16), UpperHexDigit(b % 16));
  }

  lemma ReadsDigits(s: string)
    requires s != "" && AllHex(s) && Value(s, 16) <= MAX_UINT32
    ensures ParseUint(s, 16) == Parsed(Value(s, 16), None)
    ensures Value(s, 16) < LIMIT_INT32 ==> ParseInt(s, 16) == Parsed(Value(s, 16), None)
  {
    HexIsBelow(s);
    ParsesDigits(s, 16, 0);
    assert IsHex(s[0]);
  }

  lemma ByteRoundTrip(b: byte)
    ensures ParseInt(KernelByte(b), 16) == Parsed(b, None)
  {
    hide ParseInt, Value, KernelByte;
    EmptyValue();
    ByteValue("", b);
    assert "" + KernelByte(b) == KernelByte(b);
    ReadsDigits(KernelByte(b));
  }

  lemma EmptyValue()
    ensures Value("", 16) == 0
  {
  }

  lemma PortRoundTrip(port: nat)
    requires port < 0x1_0000
    ensures ParseInt(KernelPort(port), 16) == Parsed(port, None)
  {
    hide ParseInt, Value, KernelByte;
    EmptyValue();
    ByteValue("", port / 256);
    assert "" + KernelByte(port / 256) == KernelByte(port / 256);
    ByteValue(KernelByte(port / 256), port % 256);
    ReadsDigits(KernelPort(port));
  }

  function WordValue(w: Word): nat {
    ((w.b3 as nat * 256 + w.b2) * 256 + w.b1) * 256 + w.b0
  }

  lemma KernelWordValue(w: Word)
    ensures Value(KernelWord(w), 16) == WordValue(w)
  {
    hide Value, KernelByte;
    EmptyValue();
    var s3 := KernelByte(w.b3);
    var s2 := s3 + KernelByte(w.b2);
    var s1 := s2 + KernelByte(w.b1);
    ByteValue("", w.b3);
    assert "" + KernelByte(w.b3) == s3;
    ByteValue(s3, w.b2);
    ByteValue(s2, w.b1);
    ByteValue(s1, w.b0);
  }

  lemma ShiftDown(high: nat, low: nat)
    ensures low < 256 ==> (high * 256 + low) / 256 == high && (high * 256 + low) % 256 == low
    ensures low < 0x1_0000 ==> (high * 0x1_0000 + low) / 0x1_0000 == high
    ensures low < 0x100_0000 ==> (high * 0x100_0000 + low) / 0x100_0000 == high
  {
  }

  lemma WordBytes(w: Word)
    ensures
      var v := WordValue(w);
      && v <= MAX_UINT32
      && w == Word(v % 256, v / 256 % 256, v / 0x1_0000 % 256, v / 0x100_0000 % 256)
  {
    var v3: nat := w.b3;
    var v2 := v3 * 256 + w.b2;
    var v1 := v2 * 256 + w.b1;
    ShiftDown(v3, w.b2);
    ShiftDown(v2, w.b1);
    ShiftDown(v1, w.b0);
    ShiftDown(v2, w.b1 as nat * 256 + w.b0);
    ShiftDown(v3, (w.b2 as nat * 256 + w.b1) * 256 + w.b0);
    var v := WordValue(w);
    assert v == v2 * 0x1_0000 + (w.b1 as nat * 256 + w.b0);
    assert v == v3 * 0x100_0000 + ((w.b2 as nat * 256 + w.b1) * 256 + w.b0);
  }

  lemma WordRoundTrip(w: Word)
    ensures WordOf(KernelWord(w)) == w
  {
    hide ParseUint, Value, KernelWord, WordValue;
    KernelWordValue(w);
    WordBytes(w);
    ReadsDigits(KernelWord(w));
  }

  lemma {:induction false} KernelWordsAt(ws: seq<Word>, k: nat)
    requires k < |ws|
    ensures KernelWords(ws)[8 * k..8 * k + 8] == KernelWord(ws[k])
  {
    hide KernelWord;
    if k > 0 {
      KernelWordsAt(ws[1..], k - 1);
      assert KernelWords(ws)[8 * k..8 * k + 8] == KernelWords(ws[1..])[8 * (k - 1)..8 * (k - 1) + 8];
    }
  }

  lemma WordsRoundTrip(ws: seq<Word>)
    requires |ws| == 4
    ensures WordsOf(KernelWords(ws)) == ws
  {
    hide WordOf, KernelWord, KernelWords;
    forall k | 0 <= k < 4 ensures WordsOf(KernelWords(ws))[k] == ws[k] {
      KernelWordsAt(ws, k);
      WordRoundTrip(ws[k]);
    }
  }

  // ----- parseAddress -----

  lemma HexIsFree(s: string)
    requires AllHex(s)
    ensures Free(s, ':')
  {
  }

  lemma SplitAddress(a: string, b: string)
    requires AllHex(a) && AllHex(b)
    ensures Split(a + ":" + b, ':') == [a, b]
  {
    hide Split;
    HexIsFree(a);
    HexIsFree(b);
    SplitOfFree(a, ':');
    SplitOfFree(b, ':');
    SplitConcat(a, b, ':');
    assert a + ":" + b == a + [':'] + b;
  }

  /** The dotted text of an IPv4 address. */
  function Dotted(w: Word): string {
    DottedText(w.b0, w.b1, w.b2, w.b3)
  }

  lemma KernelBytes(w: Word)
    ensures
      var s := KernelWord(w);
      && ByteAt(s, 6) == w.b0 && ByteAt(s, 4) == w.b1 && ByteAt(s, 2) == w.b2 && ByteAt(s, 0) == w.b3
  {
    hide ParseInt, KernelByte;
    ByteRoundTrip(w.b0);
    ByteRoundTrip(w.b1);
    ByteRoundTrip(w.b2);
    ByteRoundTrip(w.b3);
    var s := KernelWord(w);
    assert s[6..8] == KernelByte(w.b0) && s[4..6] == KernelByte(w.b1);
    assert s[2..4] == KernelByte(w.b2) && s[0..2] == KernelByte(w.b3);
  }

  /** Every IPv4 address and port the kernel can print is read as that address, in dotted decimal, and that port. */
  lemma IPv4RoundTrip(w: Word, port: nat)
    requires port < 0x1_0000
    ensures ParseAddress(KernelAddress([w], port), "IPv4") == Some(Address(Dotted(w), port))
  {
    hide ParseInt, KernelWord, KernelPort, Split, DottedText, ByteAt;
    assert KernelWords([w]) == KernelWord(w);
    SplitAddress(KernelWord(w), KernelPort(port));
    PortRoundTrip(port);
    KernelBytes(w);
  }

  /** Every IPv6 address and port the kernel can print is read as the hextets of that address and that port. */
  lemma IPv6RoundTrip(ws: seq<Word>, port: nat)
    requires |ws| == 4 && port < 0x1_0000
    ensures ParseAddress(KernelAddress(ws, port), "IPv6") == Some(Address(Join(Hextets(ws), ':'), port))
  {
    hide ParseInt, KernelWords, KernelPort, Split, Join, Hextets, WordsOf;
    SplitAddress(KernelWords(ws), KernelPort(port));
    PortRoundTrip(port);
    WordsRoundTrip(ws);
  }

  // ----- Reading the shown text back -----

  /** The four numbers of a dotted text. */
  function ReadDotted(text: string): Option<seq<nat>> {
    var parts := Split(text, '.');
    if forall k :: 0 <= k < |parts| ==> AllDigits(parts[k]) then
      Some(seq(|parts|, k requires 0 <= k < |parts| => NatValue(parts[k])))
    else None
  }

  lemma DottedReadsBack(w: Word)
    ensures ReadDotted(Dotted(w)) == Some([w.b0 as nat, w.b1, w.b2, w.b3])
  {
    hide Split, Join, PrintNat, NatValue;
    var parts := [PrintNat(w.b0), PrintNat(w.b1), PrintNat(w.b2), PrintNat(w.b3)];
    assert Dotted(w) == Join(parts, '.');
    assert forall k :: 0 <= k < 4 ==> AllDigits(parts[k]);
    SplitJoin(parts, '.');
    NatValuePrint(w.b0);
    NatValuePrint(w.b1);
    NatValuePrint(w.b2);
    NatValuePrint(w.b3);
    assert ReadDotted(Dotted(w)).value == [w.b0 as nat, w.b1, w.b2, w.b3];
  }

  /** The numbers of the parts between the colons. */
  function ReadHextets(text: string): (values: seq<nat>)
    ensures |values| == |Split(text, ':')|
    ensures forall k :: 0 <= k < |values| ==> values[k] == Value(Split(text, ':')[k], 16)
  {
    var parts := Split(text, ':');
    seq(|parts|, k requires 0 <= k < |parts| => Value(parts[k], 16))
  }

  function HextetValues(ws: seq<Word>): (values: seq<nat>)
    ensures |values| == 2 * |ws|
  {
    if ws == [] then [] else [Hextet(ws[0].b0, ws[0].b1), Hextet(ws[0].b2, ws[0].b3)] + HextetValues(ws[1..])
  }

  lemma {:induction false} HextetsAt(ws: seq<Word>, k: nat)
    requires k < 2 * |ws|
    ensures Hextets(ws)[k] == PrintHex(HextetValues(ws)[k]) && HextetValues(ws)[k] < 0x1_0000
  {
    hide PrintHex;
    if k >= 2 {
      HextetsAt(ws[1..], k - 2);
    }
  }

  lemma HextetsFree(ws: seq<Word>)
    ensures AllFree(Hextets(ws), ':')
  {
    hide PrintHex, Hextets, HextetValues;
    forall k | 0 <= k < 2 * |ws| ensures Free(Hextets(ws)[k], ':') {
      HextetsAt(ws, k);
      HexIsFree(PrintHex(HextetValues(ws)[k]));
    }
  }

  lemma {:induction false} HextetBytes(ws: seq<Word>, k: nat)
    requires k < |ws|
    ensures HextetValues(ws)[2 * k] == ws[k].b0 as nat * 256 + ws[k].b1
    ensures HextetValues(ws)[2 * k + 1] == ws[k].b2 as nat * 256 + ws[k].b3
  {
    if k > 0 {
      HextetBytes(ws[1..], k - 1);
    }
  }

  /** Two numbers for every four bytes, each made of two bytes in network order. */
  lemma HextetsReadBack(ws: seq<Word>)
    requires ws != []
    ensures Split(Join(Hextets(ws), ':'), ':') == Hextets(ws)
    ensures ReadHextets(Join(Hextets(ws), ':')) == HextetValues(ws)
    ensures forall k :: 0 <= k < |ws| ==>
              && ReadHextets(Join(Hextets(ws), ':'))[2 * k] == ws[k].b0 as nat * 256 + ws[k].b1
              && ReadHextets(Join(Hextets(ws), ':'))[2 * k + 1] == ws[k].b2 as nat * 256 + ws[k].b3
  {
    hide PrintHex, Hextets, HextetValues, Join, Split, Value;
    forall k | 0 <= k < |ws|
      ensures HextetValues(ws)[2 * k] == ws[k].b0 as nat * 256 + ws[k].b1
      ensures HextetValues(ws)[2 * k + 1] == ws[k].b2 as nat * 256 + ws[k].b3
    {
      HextetBytes(ws, k);
    }
    HextetsFree(ws);
    SplitJoin(Hextets(ws), ':');
    forall k | 0 <= k < 2 * |ws| ensures ReadHextets(Join(Hextets(ws), ':'))[k] == HextetValues(ws)[k] {
      HextetsAt(ws, k);
      ValuePrintHex(HextetValues(ws)[k]);
    }
  }

  lemma HextetInjective(a: byte, b: byte, c: byte, d: byte)
    ensures Hextet(a, b) == Hextet(c, d) ==> a == c && b == d
  {
  }

  lemma {:induction false} ValuesDetermine(ws: seq<Word>, vs: seq<Word>)
    requires HextetValues(ws) == HextetValues(vs)
    ensures ws == vs
  {
    assert |ws| == |vs|;
    if ws != [] {
      var a, b := HextetValues(ws), HextetValues(vs);
      assert a[0] == b[0] && a[1] == b[1] && a[2..] == b[2..];
      HextetInjective(ws[0].b0, ws[0].b1, vs[0].b0, vs[0].b1);
      HextetInjective(ws[0].b2, ws[0].b3, vs[0].b2, vs[0].b3);
      ValuesDetermine(ws[1..], vs[1..]);
    }
  }

  /** Different addresses are shown differently. */
  lemma ShownDifferently(ws: seq<Word>, vs: seq<Word>)
    requires ws != [] && vs != [] && Join(Hextets(ws), ':') == Join(Hextets(vs), ':')
    ensures ws == vs
  {
    hide Hextets, HextetValues, Join;
    HextetsReadBack(ws);
    HextetsReadBack(vs);
    ValuesDetermine(ws, vs);
  }

  lemma IPv4ShownDifferently(w: Word, v: Word)
    requires Dotted(w) == Dotted(v)
    ensures w == v
  {
    hide Dotted, ReadDotted;
    DottedReadsBack(w);
    DottedReadsBack(v);
    assert [w.b0 as nat, w.b1, w.b2, w.b3] == [v.b0 as nat, v.b1, v.b2, v.b3];
    var a, b := [w.b0 as nat, w.b1, w.b2, w.b3], [v.b0 as nat, v.b1, v.b2, v.b3];
    assert a[0] == b[0] && a[1] == b[1] && a[2] == b[2] && a[3] == b[3];
  }

  // ----- The form of a hextet -----

  predicate LowerHex(s: string) {
    forall i :: 0 <= i < |s| ==> IsDigit(s[i]) || 'a' <= s[i] <= 'f'
  }

  lemma {:induction false} PrintHexForm(n: nat, digits: nat)
    requires digits >= 1 && (digits == 1 ==> n < 16) && (digits == 2 ==> n < 256)
    requires (digits == 3 ==> n < 0x1000) && (digits == 4 ==> n < 0x1_0000) && digits <= 4
    ensures 1 <= |PrintHex(n)| <= digits && LowerHex(PrintHex(n)) && (|PrintHex(n)| > 1 ==> PrintHex(n)[0] != '0')
  {
    if n >= 16 {
      PrintHexForm(n / 16, digits - 1);
    }
  }

  /** What is shown for an IPv6 address: eight parts of one to four lower-case digits without superfluous zeros (form 1 of
      section 2.2 of RFC 4291; sections 4.1 and 4.3 of RFC 5952, but no "::"). */
  lemma ShownForm(ws: seq<Word>, k: nat)
    requires |ws| == 4 && k < 8
    ensures
      var parts := Split(Join(Hextets(ws), ':'), ':');
      && |parts| == 8 && 1 <= |parts[k]| <= 4 && LowerHex(parts[k]) && (|parts[k]| > 1 ==> parts[k][0] != '0')
  {
    hide PrintHex, Hextets, HextetValues, Join, Split;
    HextetsReadBack(ws);
    HextetsAt(ws, k);
    PrintHexForm(HextetValues(ws)[k], 4);
  }
}
