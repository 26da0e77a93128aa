/** Lines of /proc/net/tcp and /proc/net/tcp6 are read as the sockets the kernel printed. */
module SocketLaws {
  import opened Text
  import opened Words
  import opened Types
  import opened Numbers
  import opened Addresses
  import opened AddressLaws
  import opened Sockets

  /** A socket as the kernel knows it: addresses of one word or of four. */
  datatype KernelSocket = KernelSocket(
    local: seq<Word>,
    localPort: nat,
    remote: seq<Word>,
    remotePort: nat,
    state: byte,
    uid: uint32,
    inode: uint32)

  predicate WellFormed(s: KernelSocket, v6: bool) {
    && |s.local| == |s.remote| == (if v6 then 4 else 1)
    && s.localPort < 0x1_0000 && s.remotePort < 0x1_0000
  }

  /** The fields the kernel prints, as far as the service looks at them; blanks between them do not matter. */
  predicate PrintedAs(fields: seq<string>, s: KernelSocket, v6: bool)
    requires WellFormed(s, v6)
  {
    && |fields| >= 10
    && fields[1] == KernelAddress(s.local, s.localPort) && fields[2] == KernelAddress(s.remote, s.remotePort)
    && fields[3] == KernelByte(s.state) && fields[7] == PrintNat(s.uid) && fields[9] == PrintNat(s.inode)
  }

  function Shown(ws: seq<Word>, v6: bool): string
    requires |ws| == (if v6 then 4 else 1)
  {
    if v6 then Join(Hextets(ws), ':') else Dotted(ws[0])
  }

  lemma {:induction false} DecimalValue(n: nat)
    ensures Value(PrintNat(n), 10) == n && AllBelow(PrintNat(n), 10)
  {
    var s := PrintNat(n);
    if n < 10 {
      assert s[..0] == "";
    } else {
      DecimalValue(n / 10);
      assert s[..|s| - 1] == PrintNat(n / 10);
    }
  }

  lemma DecimalRoundTrip(n: uint32)
    ensures ParseUint(PrintNat(n), 10) == Parsed(n, None)
  {
    hide Value, ParseUint;
    DecimalValue(n);
    ParseUintExact(PrintNat(n), 10);
  }

  lemma AddressRoundTrip(ws: seq<Word>, port: nat, v6: bool)
    requires |ws| == (if v6 then 4 else 1) && port < 0x1_0000
    ensures ParseAddress(KernelAddress(ws, port), if v6 then "IPv6" else "IPv4") == Some(Address(Shown(ws, v6), port))
  {
    hide ParseAddress, KernelAddress, Hextets, Join, Dotted;
    if v6 {
      IPv6RoundTrip(ws, port);
    } else {
      assert ws == [ws[0]];
      IPv4RoundTrip(ws[0], port);
    }
  }

  /** The states in the order of their numbers, which start at one (include/net/tcp_states.h of the Linux kernel). */
  const STATES := [Established, SynSent, SynRecv, FinWait1, FinWait2, TimeWait, Closed, CloseWait, LastAck, Listen, Closing]

  function NumberedState(n: nat): SocketState {
    if 1 <= n <= |STATES| then STATES[n - 1] else Unspecified
  }

  lemma StateOfIsNumbered(n: nat)
    ensures StateOf(n) == NumberedState(n)
  {
    assert STATES[0] == Established && STATES[1] == SynSent && STATES[2] == SynRecv && STATES[3] == FinWait1;
    assert STATES[4] == FinWait2 && STATES[5] == TimeWait && STATES[6] == Closed && STATES[7] == CloseWait;
    assert STATES[8] == LastAck && STATES[9] == Listen && STATES[10] == Closing;
  }

  /** What the service says about a socket. */
  function Described(s: KernelSocket, v6: bool): Connection
    requires WellFormed(s, v6)
  {
    Connection(Shown(s.local, v6), s.localPort, Shown(s.remote, v6), s.remotePort, NumberedState(s.state), s.uid, s.inode)
  }

  /** Every line the kernel can print yields its socket, with both addresses in text form. */
  lemma KernelLineIsRead(line: string, s: KernelSocket, v6: bool)
    requires WellFormed(s, v6) && PrintedAs(Fields(line), s, v6)
    ensures LineConnection(line, if v6 then "IPv6" else "IPv4") == Some(Described(s, v6))
  {
    hide Fields, ParseUint, ParseInt, ParseAddress, KernelAddress, KernelByte, PrintNat, Shown, StateOf, NumberedState;
    AddressRoundTrip(s.local, s.localPort, v6);
    AddressRoundTrip(s.remote, s.remotePort, v6);
    ByteRoundTrip(s.state);
    DecimalRoundTrip(s.uid);
    DecimalRoundTrip(s.inode);
    StateOfIsNumbered(s.state);
  }

  // ----- Whole files -----

  ghost predicate KernelLines(lines: seq<string>, ks: seq<KernelSocket>, v6: bool) {
    && |lines| == |ks|
    && forall i :: 0 <= i < |ks| ==> WellFormed(ks[i], v6) && PrintedAs(Fields(lines[i]), ks[i], v6)
  }

  /** The sockets a file has to offer: those printed behind its first line, and none if it cannot be read to its end. */
  ghost predicate Offers(file: File, ks: seq<KernelSocket>, v6: bool) {
    match file
    case NoFile => ks == []
    case File(lines, complete) => if lines == [] || !complete then ks == [] else KernelLines(lines[1..], ks, v6)
  }

  /** The connections are those of the sockets at the given places, in their order; and those are exactly the sockets whose
      inode is known, or all of them when no inode is. */
  ghost predicate ExactlyThose(conns: seq<Connection>, ks: seq<KernelSocket>, v6: bool, inodes: set<uint32>, picks: seq<nat>) {
    && |picks| == |conns| && (forall j, l :: 0 <= j < l < |picks| ==> picks[j] < picks[l])
    && (forall j :: 0 <= j < |picks| ==>
          picks[j] < |ks| && WellFormed(ks[picks[j]], v6) && conns[j] == Described(ks[picks[j]], v6))
    && forall i :: 0 <= i < |ks| ==> (i in picks <==> inodes == {} || ks[i].inode in inodes)
  }

  /** One socket more: its place comes last, if it is picked at all. */
  lemma OneMoreSocket(conns: seq<Connection>, ks: seq<KernelSocket>, v6: bool, inodes: set<uint32>, picks: seq<nat>)
    requires ks != [] && WellFormed(ks[|ks| - 1], v6) && ExactlyThose(conns, ks[..|ks| - 1], v6, inodes, picks)
    ensures
      var n := |ks| - 1;
      if inodes == {} || ks[n].inode in inodes
      then ExactlyThose(conns + [Described(ks[n], v6)], ks, v6, inodes, picks + [n])
      else ExactlyThose(conns, ks, v6, inodes, picks)
  {
    hide Described, WellFormed;
    var n := |ks| - 1;
    forall i | 0 <= i < |ks|
      ensures i < n ==> (i in picks + [n] <==> i in picks) && (i in picks <==> inodes == {} || ks[i].inode in inodes)
      ensures i == n ==> i !in picks
    {
      assert i < n ==> ks[..n][i] == ks[i];
    }
    assert forall j :: 0 <= j < |picks| ==> ks[picks[j]] == ks[..n][picks[j]];
  }

  lemma {:induction false} SelectedAre(lines: seq<string>, ks: seq<KernelSocket>, v6: bool, inodes: set<uint32>)
    returns (picks: seq<nat>)
    requires KernelLines(lines, ks, v6)
    ensures ExactlyThose(Selected(lines, if v6 then "IPv6" else "IPv4", inodes), ks, v6, inodes, picks)
    decreases |lines|
  {
    hide LineConnection, PrintedAs, Described, WellFormed, ExactlyThose;
    if lines == [] {
      NoneExactly(v6, inodes);
      return [];
    }
    var n := |lines| - 1;
    var front := SelectedAre(lines[..n], ks[..n], v6, inodes);
    KernelLineIsRead(lines[n], ks[n], v6);
    InodeIsShown(ks[n], v6);
    var conns := Selected(lines[..n], if v6 then "IPv6" else "IPv4", inodes);
    OneMoreSocket(conns, ks, v6, inodes, front);
    assert conns + [] == conns;
    picks := if inodes == {} || ks[n].inode in inodes then front + [n] else front;
  }

  lemma NoneExactly(v6: bool, inodes: set<uint32>)
    ensures ExactlyThose([], [], v6, inodes, [])
  {
  }

  lemma InodeIsShown(s: KernelSocket, v6: bool)
    requires WellFormed(s, v6)
    ensures Described(s, v6).inode == s.inode
  {
  }

  /** What is read of a file is exactly what it has to offer, as far as the inodes are known. */
  lemma FileIsRead(file: File, ks: seq<KernelSocket>, v6: bool, inodes: set<uint32>)
    returns (conns: seq<Connection>, picks: seq<nat>)
    requires Offers(file, ks, v6)
    ensures
      var sockets := SocketsIn(file, if v6 then "IPv6" else "IPv4", inodes);
      && (sockets.Some? ==> sockets.value == conns) && (sockets.None? ==> conns == [])
      && ExactlyThose(conns, ks, v6, inodes, picks)
  {
    hide Selected;
    conns, picks := [], [];
    if file.File? && file.lines != [] && file.complete {
      conns := Selected(file.lines[1..], if v6 then "IPv6" else "IPv4", inodes);
      picks := SelectedAre(file.lines[1..], ks, v6, inodes);
    }
  }

  /** Whatever the lines: with known inodes, no socket of another inode is shown. */
  lemma {:induction false} OthersAreLeftOut(lines: seq<string>, protocol: string, inodes: set<uint32>)
    requires inodes != {}
    ensures forall c :: c in Selected(lines, protocol, inodes) ==> c.inode in inodes
  {
    hide LineConnection;
    if lines != [] {
      OthersAreLeftOut(lines[..|lines| - 1], protocol, inodes);
    }
  }

  // ----- The response -----

  /** There is a group of this state with the connection in it. */
  ghost predicate IsShown(r: Response, c: Connection) {
    exists i :: 0 <= i < |r.groups| && r.groups[i].state == c.state && c in r.groups[i].connections
  }

  /** The response to a request: of either file exactly the sockets it offers whose inode is known, or all of them; each in
      the group of its state, those of the first file in front; and their number. */
  lemma RequestIsAnswered(r: Response, inodes: Option<set<uint32>>, tcp: File, ks4: seq<KernelSocket>, tcp6: File,
                          ks6: seq<KernelSocket>)
    returns (conns4: seq<Connection>, picks4: seq<nat>, conns6: seq<Connection>, picks6: seq<nat>)
    requires Describes(r, AllSockets(inodes, tcp, tcp6)) && Offers(tcp, ks4, false) && Offers(tcp6, ks6, true)
    ensures
      var known := if inodes.Some? then inodes.value else {};
      ExactlyThose(conns4, ks4, false, known, picks4) && ExactlyThose(conns6, ks6, true, known, picks6)
    ensures forall c :: c in conns4 || c in conns6 ==> IsShown(r, c)
    ensures forall i :: 0 <= i < |r.groups| ==>
              r.groups[i].connections == OfState(conns4, r.groups[i].state) + OfState(conns6, r.groups[i].state)
    ensures |conns4| + |conns6| < 0x8000_0000 ==> r.total == |conns4| + |conns6|
  {
    hide SocketsIn, OfState, Offers, ExactlyThose, ToInt32, Describes, IsShown;
    var known := if inodes.Some? then inodes.value else {};
    conns4, picks4 := FileIsRead(tcp, ks4, false, known);
    conns6, picks6 := FileIsRead(tcp6, ks6, true, known);
    assert AllSockets(inodes, tcp, tcp6) == conns4 + conns6;
    AllAreShown(r, conns4 + conns6);
    GroupsOfBoth(r, conns4, conns6);
    if |conns4| + |conns6| < 0x8000_0000 {
      CountsAddUp(r, conns4 + conns6);
    }
  }

  lemma AllAreShown(r: Response, conns: seq<Connection>)
    requires Describes(r, conns)
    ensures forall c :: c in conns ==> IsShown(r, c)
  {
    hide Describes, OfState;
    GroupsPartition(r, conns);
  }

  lemma GroupsOfBoth(r: Response, a: seq<Connection>, b: seq<Connection>)
    requires Describes(r, a + b)
    ensures forall i :: 0 <= i < |r.groups| ==>
              r.groups[i].connections == OfState(a, r.groups[i].state) + OfState(b, r.groups[i].state)
  {
    hide OfState, ToInt32;
    forall i | 0 <= i < |r.groups|
      ensures r.groups[i].connections == OfState(a, r.groups[i].state) + OfState(b, r.groups[i].state)
    {
      GroupsKeepOrder(a, b, r.groups[i].state);
    }
  }

  // ----- Lines the kernel did not print -----

  /** A number in decimal digits that fits into 32 bits. */
  predicate Decimal32(s: string) {
    s != "" && AllDigits(s) && NatValue(s) <= MAX_UINT32
  }

  lemma {:induction false} DigitsMean(s: string)
    requires AllDigits(s)
    ensures AllBelow(s, 10) && Value(s, 10) == NatValue(s)
  {
    if s != "" {
      DigitsMean(s[..|s| - 1]);
    }
  }

  lemma Decimal32Iff(s: string)
    ensures Decimal32(s) <==> ParseUint(s, 10).error.None?
    ensures Decimal32(s) ==> ParseUint(s, 10).value == NatValue(s)
  {
    hide Value, NatValue, ParseUint;
    ParseUintExact(s, 10);
    if AllDigits(s) {
      DigitsMean(s);
    } else {
      var i :| 0 <= i < |s| && !IsDigit(s[i]);
      assert DigitOf(s[i]) >= 10;
    }
  }

  /** A line is skipped if and only if it has less than ten fields, or a field that matters cannot be read; otherwise the
      connection has the addresses of fields 1 and 2, the state numbered in field 3, and the numbers of fields 7 and 9. */
  lemma LineIsReadIff(line: string, protocol: string)
    ensures
      var fields, c := Fields(line), LineConnection(line, protocol);
      && (c.Some? <==>
            && |fields| >= 10 && Decimal32(fields[7]) && Decimal32(fields[9]) && ParseInt(fields[3], 16).error.None?
            && ParseAddress(fields[1], protocol).Some? && ParseAddress(fields[2], protocol).Some?)
      && (c.Some? ==>
            var here, there := ParseAddress(fields[1], protocol).value, ParseAddress(fields[2], protocol).value;
            var state := ParseInt(fields[3], 16).value;
            && c.value.localAddress == here.ip && c.value.remoteAddress == there.ip
            && c.value.localPort == here.port % 0x1_0000_0000 && c.value.remotePort == there.port % 0x1_0000_0000
            && c.value.state == (if state >= 0 then NumberedState(state) else Unspecified)
            && c.value.uid == NatValue(fields[7]) && c.value.inode == NatValue(fields[9]))
  {
    hide Fields, ParseUint, ParseInt, ParseAddress, Decimal32, NatValue, NumberedState;
    var fields := Fields(line);
    if |fields| >= 10 {
      Decimal32Iff(fields[7]);
      Decimal32Iff(fields[9]);
      var state := ParseInt(fields[3], 16).value;
      if state >= 0 {
        StateOfIsNumbered(state);
      }
    }
  }

  /** The number at i, as far as it can be read. */
  function PairValue(s: string, i: nat): int
    requires i + 2 <= |s|
  {
    ParseInt(s[i..i + 2], 16).value
  }

  /** The number stands for the four bytes, the lowest first. */
  predicate InBytes(n: int, w: Word) {
    n == w.b0 + 0x100 * w.b1 + 0x1_0000 * w.b2 + 0x100_0000 * w.b3
  }

  lemma WordIsInBytes(digits: string)
    ensures InBytes(ParseUint(digits, 16).value, WordOf(digits))
  {
    hide ParseUint;
    var v := ParseUint(digits, 16).value;
    assert v / 0x1_0000 == v / 256 / 256 && v / 0x100_0000 == v / 0x1_0000 / 256;
  }

  /** What is shown of the part of an address in front of the colon: for IPv4 four numbers, the last pair first; for IPv6 the
      hextets of four words of eight digits, the first byte of a word being the lowest of its number, and a text of another
      length than 32 as it is. */
  lemma AddressIsShown(a: string, b: string, v6: bool) returns (ws: seq<Word>)
    requires Free(a, ':') && Free(b, ':') && ParseInt(b, 16).error.None? && (v6 || |a| == 8)
    ensures
      var r := ParseAddress(a + ":" + b, if v6 then "IPv6" else "IPv4");
      && r.Some? && r.value.port == ParseInt(b, 16).value && (v6 && |a| != 32 ==> r.value.ip == a)
      && (!v6 ==>
            r.value.ip == PrintInt(PairValue(a, 6)) + "." + PrintInt(PairValue(a, 4)) + "." + PrintInt(PairValue(a, 2)) + "."
                          + PrintInt(PairValue(a, 0)))
      && (v6 && |a| == 32 ==>
            && |ws| == 4 && r.value.ip == Join(Hextets(ws), ':')
            && forall k :: 0 <= k < 4 ==> InBytes(ParseUint(a[8 * k..8 * k + 8], 16).value, ws[k]))
  {
    hide ParseInt, ParseUint, Split, PrintInt, Hextets, InBytes, WordOf;
    ws := [];
    if |a| == 32 {
      ws := WordsOf(a);
      forall k | 0 <= k < 4 ensures InBytes(ParseUint(a[8 * k..8 * k + 8], 16).value, ws[k]) {
        WordIsInBytes(a[8 * k..8 * k + 8]);
      }
    }
    SplitOfFree(a, ':');
    SplitOfFree(b, ':');
    SplitConcat(a, b, ':');
    assert a + ":" + b == a + [':'] + b;
    if !v6 {
      JoinedFour(PrintInt(PairValue(a, 6)), PrintInt(PairValue(a, 4)), PrintInt(PairValue(a, 2)), PrintInt(PairValue(a, 0)));
    }
  }

  lemma JoinedFour(a: string, b: string, c: string, d: string)
    ensures Join([a, b, c, d], '.') == a + "." + b + "." + c + "." + d
  {
    assert [a, b, c, d][1..] == [b, c, d] && [b, c, d][1..] == [c, d] && [c, d][1..] == [d];
    assert Join([c, d], '.') == c + "." + d;
    assert Join([b, c, d], '.') == b + "." + (c + "." + d);
    assert a + "." + (b + "." + (c + "." + d)) == a + "." + b + "." + c + "." + d;
  }

  /** An address is read if and only if it is two texts around one colon, of which the second is a number, and the first has
      eight characters for IPv4. */
  lemma AddressIsReadIff(text: string, v6: bool)
    ensures
      ParseAddress(text, if v6 then "IPv6" else "IPv4").Some? <==>
      exists a, b :: text == a + ":" + b && Free(a, ':') && Free(b, ':') && ParseInt(b, 16).error.None? && (v6 || |a| == 8)
  {
    hide ParseInt, Split, IPv6Text, DottedText, ByteAt;
    var parts := Split(text, ':');
    SplitFree(text, ':');
    JoinSplit(text, ':');
    if |parts| == 2 {
      TwoPieces(parts);
      assert text == parts[0] + ":" + parts[1] && Free(parts[0], ':') && Free(parts[1], ':');
    }
    if a, b :| text == a + ":" + b && Free(a, ':') && Free(b, ':') && ParseInt(b, 16).error.None? && (v6 || |a| == 8) {
      SplitOfFree(a, ':');
      SplitOfFree(b, ':');
      SplitConcat(a, b, ':');
      assert text == a + [':'] + b;
    }
  }

  lemma TwoPieces(parts: seq<string>)
    requires |parts| == 2
    ensures Join(parts, ':') == parts[0] + ":" + parts[1]
  {
    assert parts[1..] == [parts[1]];
  }
}
