/** Socket addresses of /proc/net/tcp and /proc/net/tcp6: words of four bytes, printed by the kernel as hexadecimal numbers
    of a little-endian machine. */
module Addresses {
  import opened Text
  import opened Numbers

  type byte = n: nat | n < 256

  /** Four bytes of an address in network order: an IPv4 address, or a quarter of an IPv6 address. */
  datatype Word = Word(b0: byte, b1: byte, b2: byte, b3: byte)

  datatype Address = Address(ip: string, port: int)

  // ----- parseAddress -----

  /** The two digits at i, as ParseInt reads them; on an error the value counts all the same. */
  function ByteAt(s: string, i: nat): int
    requires i + 2 <= |s|
  {
    ParseInt(s[i..i + 2], 16).value
  }

  function DottedText(b1: int, b2: int, b3: int, b4: int): string {
    Join([PrintInt(b1), PrintInt(b2), PrintInt(b3), PrintInt(b4)], '.')
  }

  function ParseAddress(text: string, protocol: string): Option<Address> {
    var parts := Split(text, ':');
    if |parts| != 2 then None
    else
      var port := ParseInt(parts[1], 16);
      if port.error.Some? then None
      else if protocol == "IPv4" then
        if |parts[0]| != 8 then None
        else
          Some(Address(DottedText(ByteAt(parts[0], 6), ByteAt(parts[0], 4), ByteAt(parts[0], 2), ByteAt(parts[0], 0)),
                       port.value))
      else if protocol == "IPv6" then Some(Address(IPv6Text(parts[0]), port.value))
      else None
  }

  // ----- parseIPv6 -----

  /** The number's lowest byte is the first byte of the address. */
  function WordOf(digits: string): Word {
    var v := ParseUint(digits, 16).value;
    Word(v % 256, v / 256 % 256, v / 0x1_0000 % 256, v / 0x100_0000 % 256)
  }

  function WordsOf(digits: string): (ws: seq<Word>)
    requires |digits| == 32
    ensures |ws| == 4 && forall k :: 0 <= k < 4 ==> ws[k] == WordOf(digits[8 * k..8 * k + 8])
  {
    seq(4, k requires 0 <= k < 4 => WordOf(digits[8 * k..8 * k + 8]))
  }

  /** Two bytes in network order. */
  function Hextet(a: nat, b: nat): nat {
    a * 256 + b
  }

  /** The hextets of an address in the minimal lower-case form. */
  function Hextets(ws: seq<Word>): (parts: seq<string>)
    ensures |parts| == 2 * |ws|
  {
    if ws == [] then []
    else [PrintHex(Hextet(ws[0].b0, ws[0].b1)), PrintHex(Hextet(ws[0].b2, ws[0].b3))] + Hextets(ws[1..])
  }

  /** Eight hextets for 32 digits; anything else is shown as it is. */
  function IPv6Text(digits: string): string {
    if |digits| != 32 then digits else Join(Hextets(WordsOf(digits)), ':')
  }

  /** %02x. */
  function PrintByte(b: byte): (s: string)
    ensures |s| == 2 && AllHex(s)
  {
    [HexDigit(b / 16), HexDigit(b % 16)]
  }

  function PrintPair(a: byte, b: byte): string {
    PrintByte(a) + PrintByte(b)
  }

  function WordPart(w: Word): string {
    PrintPair(w.b0, w.b1) + ":" + PrintPair(w.b2, w.b3)
  }

  function WordParts(ws: seq<Word>): (parts: seq<string>)
    ensures |parts| == |ws| && forall k :: 0 <= k < |ws| ==> parts[k] == WordPart(ws[k])
  {
    seq(|ws|, k requires 0 <= k < |ws| => WordPart(ws[k]))
  }

  method ParseIPv6(digits: string) returns (ip: string)
    ensures ip == IPv6Text(digits)
  {
    hide WordOf, WordPart, Hextets, Join, Split;
    if |digits| != 32 {
      return digits;
    }
    var parts := [];
    var i := 0;
    while i < 32
      invariant i == 8 * |parts| <= 32
      invariant forall k :: 0 <= k < |parts| ==> parts[k] == WordPart(WordOf(digits[8 * k..8 * k + 8]))
    {
      var part := FormatWord(digits[i..i + 8]);
      parts := parts + [part];
      i := i + 8;
    }
    assert parts == WordParts(WordsOf(digits));
    PartsShortened(WordsOf(digits));
    ip := CompressIPv6(Join(parts, ':'));
  }

  /** The body of the loop: the four bytes are taken out of the number and printed in reverse. */
  method FormatWord(chunk: string) returns (part: string)
    ensures part == WordPart(WordOf(chunk))
  {
    var value := ParseUint(chunk, 16).value;
    var b1, b2, b3, b4 := value / 0x100_0000 % 256, value / 0x1_0000 % 256, value / 256 % 256, value % 256;
    part := PrintByte(b4) + PrintByte(b3) + ":" + (PrintByte(b2) + PrintByte(b1));
  }

  /** One part without superfluous zeros. */
  function Shortened(part: string): string {
    if TrimLeftChar(part, '0') == "" then "0" else TrimLeftChar(part, '0')
  }

  function AllShortened(parts: seq<string>): (shorts: seq<string>)
    ensures |shorts| == |parts| && forall k :: 0 <= k < |parts| ==> shorts[k] == Shortened(parts[k])
  {
    seq(|parts|, k requires 0 <= k < |parts| => Shortened(parts[k]))
  }

  method CompressIPv6(ip: string) returns (short: string)
    ensures short == Join(AllShortened(Split(ip, ':')), ':')
  {
    hide Join, Split, TrimLeftChar;
    var split := Split(ip, ':');
    var parts := new string[|split|](i requires 0 <= i < |split| => split[i]);
    for i := 0 to parts.Length
      invariant forall k :: 0 <= k < parts.Length ==> parts[k] == if k < i then Shortened(split[k]) else split[k]
    {
      parts[i] := TrimLeftChar(parts[i], '0');
      if parts[i] == "" {
        parts[i] := "0";
      }
    }
    assert parts[..] == AllShortened(split);
    short := Join(parts[..], ':');
  }

  // ----- Removing zeros gives the minimal form -----

  lemma HextetDigits(a: byte, b: byte)
    ensures Hextet(a, b) / 16 == a * 16 + b / 16 && Hextet(a, b) % 16 == b % 16
  {
  }

  lemma TwoDigits(high: nat, low: nat)
    requires low < 16
    ensures PrintHex(high * 16 + low) == if high == 0 then [HexDigit(low)] else PrintHex(high) + [HexDigit(low)]
  {
    assert (high * 16 + low) / 16 == high && (high * 16 + low) % 16 == low;
  }

  lemma DigitsOfPair(a: byte, b: byte)
    ensures PrintHex(Hextet(a, b)) ==
            if a >= 16 then PrintPair(a, b)
            else if a > 0 then PrintPair(a, b)[1..]
            else if b >= 16 then PrintPair(a, b)[2..]
            else PrintPair(a, b)[3..]
  {
    hide PrintHex;
    HextetDigits(a, b);
    TwoDigits(a * 16 + b / 16, b % 16);
    TwoDigits(a, b / 16);
    TwoDigits(a / 16, a % 16);
    TwoDigits(0, a / 16);
  }

  lemma ZeroDigit(n: nat)
    requires n < 16
    ensures HexDigit(n) == '0' <==> n == 0
  {
  }

  lemma ShortenedPair(a: byte, b: byte)
    ensures Shortened(PrintPair(a, b)) == PrintHex(Hextet(a, b))
  {
    hide PrintHex, TrimLeftChar, HexDigit;
    DigitsOfPair(a, b);
    ZeroDigit(a / 16);
    ZeroDigit(a % 16);
    ZeroDigit(b / 16);
    ZeroDigit(b % 16);
    var s := PrintPair(a, b);
    var t := TrimLeftChar(s, '0');
    assert t != "" ==> t[0] == s[4 - |t|];
  }

  lemma SplitPart(w: Word)
    ensures Split(WordPart(w), ':') == [PrintPair(w.b0, w.b1), PrintPair(w.b2, w.b3)]
  {
    hide Split;
    var a, b := PrintPair(w.b0, w.b1), PrintPair(w.b2, w.b3);
    SplitOfFree(a, ':');
    SplitOfFree(b, ':');
    SplitConcat(a, b, ':');
    assert a + ":" + b == a + [':'] + b;
  }

  lemma {:induction false} EachShortened(ws: seq<Word>)
    ensures AllShortened(SplitEach(WordParts(ws), ':')) == Hextets(ws)
  {
    hide WordPart, PrintPair, Shortened, PrintHex, Split;
    if ws != [] {
      var w, rest := ws[0], ws[1..];
      var first := Split(WordPart(w), ':');
      EachShortened(rest);
      SplitPart(w);
      ShortenedPair(w.b0, w.b1);
      ShortenedPair(w.b2, w.b3);
      assert WordParts(ws) == [WordPart(w)] + WordParts(rest);
      SplitEachStep(WordPart(w), WordParts(rest), ':');
      assert AllShortened(first + SplitEach(WordParts(rest), ':')) ==
             AllShortened(first) + AllShortened(SplitEach(WordParts(rest), ':'));
    }
  }

  /** Joining the parts, splitting them again and removing zeros leaves the hextets. */
  lemma PartsShortened(ws: seq<Word>)
    requires ws != []
    ensures AllShortened(Split(Join(WordParts(ws), ':'), ':')) == Hextets(ws)
  {
    hide Split, Join;
    SplitJoinEach(WordParts(ws), ':');
    EachShortened(ws);
  }
}
